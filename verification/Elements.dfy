/** The element container of `app/ldiff/diff.go`.  The skiplist is the sequence of its keys in
    the order of `Compare`; `xx` stands for xxhash on ids. */
module Elements {
  import opened Geometry
  import opened Buckets

  datatype Element = Element(id: string, head: string)

  type Hasher = string -> u64

  /** Go's `<` on strings. */
  predicate StringLess(a: string, b: string) {
    b != [] && (a == [] || a[0] < b[0] || (a[0] == b[0] && StringLess(a[1..], b[1..])))
  }

  /** The strings agree up to n, and there a ends or has the smaller character. */
  ghost predicate LessAt(a: string, b: string, n: nat) {
    n <= |a| && n < |b| && a[..n] == b[..n] && (n == |a| || a[n] < b[n])
  }

  /** Dictionary order, by the first difference. */
  ghost predicate Precedes(a: string, b: string) {
    exists n: nat :: LessAt(a, b, n)
  }

  lemma LessAtShift(a: string, b: string, n: nat)
    requires a != [] && b != []
    ensures LessAt(a, b, n + 1) <==> a[0] == b[0] && LessAt(a[1..], b[1..], n)
  {
    if n + 1 <= |a| && n + 1 < |b| {
      assert a[..n + 1] == [a[0]] + a[1..][..n] && b[..n + 1] == [b[0]] + b[1..][..n];
    }
  }

  lemma {:induction false} StringLessIff(a: string, b: string)
    ensures StringLess(a, b) <==> Precedes(a, b)
  {
    if b == [] || a == [] || a[0] < b[0] {
      assert StringLess(a, b) ==> LessAt(a, b, 0);
    } else {
      StringLessIff(a[1..], b[1..]);
      if m: nat :| LessAt(a[1..], b[1..], m) {
        LessAtShift(a, b, m);
      }
      if n: nat :| LessAt(a, b, n) {
        assert n > 0;
        LessAtShift(a, b, n - 1);
      }
    }
  }

  lemma {:induction false} StringLessTotal(a: string, b: string)
    ensures a == b ==> !StringLess(a, b)
    ensures a != b ==> StringLess(a, b) != StringLess(b, a)
  {
    if a != [] && b != [] {
      StringLessTotal(a[1..], b[1..]);
      assert a == [a[0]] + a[1..] && b == [b[0]] + b[1..];
    }
  }

  lemma {:induction false} StringLessTransitive(a: string, b: string, c: string)
    requires StringLess(a, b) && StringLess(b, c)
    ensures StringLess(a, c)
  {
    if a != [] && a[0] == b[0] && b[0] == c[0] {
      StringLessTransitive(a[1..], b[1..], c[1..]);
    }
  }

  /** Compare answers -1: by hash, and by id among equal hashes. */
  predicate Before(xx: Hasher, a: string, b: string) {
    a != b && (xx(a) < xx(b) || (xx(a) == xx(b) && StringLess(a, b)))
  }

  /** Compare is the order by hash and then by id, and a strict total order of ids. */
  lemma BeforeIsTotalOrder(xx: Hasher, a: string, b: string, c: string)
    ensures Before(xx, a, b) <==> xx(a) < xx(b) || (xx(a) == xx(b) && Precedes(a, b))
    ensures !Before(xx, a, a)
    ensures a != b ==> Before(xx, a, b) != Before(xx, b, a)
    ensures Before(xx, a, b) && Before(xx, b, c) ==> Before(xx, a, c)
  {
    hide StringLess, Precedes;
    StringLessIff(a, b);
    StringLessTotal(a, b);
    if Before(xx, a, b) && Before(xx, b, c) {
      StringLessTotal(b, c);
      StringLessTotal(a, c);
      if xx(a) == xx(b) == xx(c) {
        StringLessTransitive(a, b, c);
      }
    }
  }

  ghost predicate Ordered(xx: Hasher, sl: seq<Element>) {
    forall i, j :: 0 <= i < j < |sl| ==> Before(xx, sl[i].id, sl[j].id)
  }

  /** The elements with a hash in [t.from, t.to], in container order. */
  function Within(xx: Hasher, sl: seq<Element>, t: Tuple): seq<Element> {
    if sl == [] then []
    else (if In(t, xx(sl[0].id)) then [sl[0]] else []) + Within(xx, sl[1..], t)
  }

  /** Removing by id, and inserting at the place Compare gives. */
  function Without(sl: seq<Element>, id: string): seq<Element> {
    if sl == [] then []
    else (if sl[0].id == id then [] else [sl[0]]) + Without(sl[1..], id)
  }

  function Insert(xx: Hasher, sl: seq<Element>, e: Element): seq<Element> {
    if sl == [] || Before(xx, e.id, sl[0].id) then [e] + sl
    else [sl[0]] + Insert(xx, sl[1..], e)
  }

  /** What Set does to the container: `sl.Remove(el); sl.Set(el, nil)`. */
  function Upsert(xx: Hasher, sl: seq<Element>, e: Element): seq<Element> {
    Insert(xx, Without(sl, e.id), e)
  }

  // ---- membership and order ----------------------------------------------------------------

  lemma {:induction false} WithinMember(xx: Hasher, sl: seq<Element>, t: Tuple, e: Element)
    ensures e in Within(xx, sl, t) <==> e in sl && In(t, xx(e.id))
  {
    if sl != [] {
      WithinMember(xx, sl[1..], t, e);
      assert sl == [sl[0]] + sl[1..];
    }
  }

  lemma {:induction false} WithoutMember(sl: seq<Element>, id: string, e: Element)
    ensures e in Without(sl, id) <==> e in sl && e.id != id
  {
    if sl != [] {
      WithoutMember(sl[1..], id, e);
      assert sl == [sl[0]] + sl[1..];
    }
  }

  lemma {:induction false} InsertMember(xx: Hasher, sl: seq<Element>, e: Element, f: Element)
    ensures f in Insert(xx, sl, e) <==> f in sl || f == e
  {
    if sl != [] && !Before(xx, e.id, sl[0].id) {
      InsertMember(xx, sl[1..], e, f);
      assert sl == [sl[0]] + sl[1..];
    }
  }

  lemma {:induction false} WithoutOrdered(xx: Hasher, sl: seq<Element>, id: string)
    requires Ordered(xx, sl)
    ensures Ordered(xx, Without(sl, id))
  {
    if sl != [] {
      WithoutOrdered(xx, sl[1..], id);
      forall f | f in Without(sl[1..], id)
        ensures Before(xx, sl[0].id, f.id)
      {
        WithoutMember(sl[1..], id, f);
      }
    }
  }

  lemma {:induction false} InsertOrdered(xx: Hasher, sl: seq<Element>, e: Element)
    requires Ordered(xx, sl) && forall f | f in sl :: f.id != e.id
    ensures Ordered(xx, Insert(xx, sl, e))
  {
    if sl == [] {
    } else if Before(xx, e.id, sl[0].id) {
      forall j | 0 <= j < |sl|
        ensures Before(xx, e.id, sl[j].id)
      {
        BeforeIsTotalOrder(xx, e.id, sl[0].id, sl[j].id);
      }
    } else {
      InsertOrdered(xx, sl[1..], e);
      BeforeIsTotalOrder(xx, e.id, sl[0].id, e.id);
      forall f | f in Insert(xx, sl[1..], e)
        ensures Before(xx, sl[0].id, f.id)
      {
        InsertMember(xx, sl[1..], e, f);
      }
    }
  }

  /** After Set the container holds the new element, the others as before, in order. */
  lemma UpsertMeaning(xx: Hasher, sl: seq<Element>, e: Element)
    requires Ordered(xx, sl)
    ensures Ordered(xx, Upsert(xx, sl, e))
    ensures forall f :: f in Upsert(xx, sl, e) <==> f == e || (f in sl && f.id != e.id)
  {
    WithoutOrdered(xx, sl, e.id);
    forall f
      ensures f in Without(sl, e.id) <==> f in sl && f.id != e.id
      ensures f in Upsert(xx, sl, e) <==> f == e || (f in sl && f.id != e.id)
    {
      WithoutMember(sl, e.id, f);
      InsertMember(xx, Without(sl, e.id), e, f);
    }
    InsertOrdered(xx, Without(sl, e.id), e);
  }

  lemma {:induction false} WithinOrdered(xx: Hasher, sl: seq<Element>, t: Tuple)
    requires Ordered(xx, sl)
    ensures Ordered(xx, Within(xx, sl, t))
  {
    if sl != [] {
      WithinOrdered(xx, sl[1..], t);
      forall f | f in Within(xx, sl[1..], t)
        ensures Before(xx, sl[0].id, f.id)
      {
        WithinMember(xx, sl[1..], t, f);
      }
    }
  }

  // ---- how updates change the elements of a range -------------------------------------------

  lemma {:induction false} WithoutAbsent(sl: seq<Element>, id: string)
    requires forall f | f in sl :: f.id != id
    ensures Without(sl, id) == sl
  {
    if sl != [] {
      WithoutAbsent(sl[1..], id);
    }
  }

  lemma {:induction false} WithinWithout(xx: Hasher, sl: seq<Element>, t: Tuple, id: string)
    requires Ordered(xx, sl)
    ensures !In(t, xx(id)) ==> Within(xx, Without(sl, id), t) == Within(xx, sl, t)
    ensures |Within(xx, Without(sl, id), t)| <= |Within(xx, sl, t)|
    ensures In(t, xx(id)) && (exists f :: f in sl && f.id == id) ==>
              |Within(xx, Without(sl, id), t)| == |Within(xx, sl, t)| - 1
  {
    if sl != [] {
      var rest := sl[1..];
      if sl[0].id == id {
        forall f | f in rest
          ensures f.id != id
        {
          assert Before(xx, sl[0].id, f.id);
        }
        WithoutAbsent(rest, id);
        assert Without(sl, id) == rest;
      } else {
        WithinWithout(xx, rest, t, id);
        assert Without(sl, id) == [sl[0]] + Without(rest, id);
        assert Without(sl, id)[1..] == Without(rest, id);
        if f :| f in sl && f.id == id {
          assert f in rest;
        }
      }
    }
  }

  lemma {:induction false} WithinInsert(xx: Hasher, sl: seq<Element>, t: Tuple, e: Element)
    ensures !In(t, xx(e.id)) ==> Within(xx, Insert(xx, sl, e), t) == Within(xx, sl, t)
    ensures In(t, xx(e.id)) ==> |Within(xx, Insert(xx, sl, e), t)| == |Within(xx, sl, t)| + 1
  {
    if sl == [] || Before(xx, e.id, sl[0].id) {
      assert ([e] + sl)[1..] == sl;
    } else {
      WithinInsert(xx, sl[1..], t, e);
      assert ([sl[0]] + Insert(xx, sl[1..], e))[1..] == Insert(xx, sl[1..], e);
    }
  }

  lemma WithinUpsert(xx: Hasher, sl: seq<Element>, t: Tuple, e: Element)
    requires Ordered(xx, sl)
    ensures !In(t, xx(e.id)) ==> Within(xx, Upsert(xx, sl, e), t) == Within(xx, sl, t)
    ensures |Within(xx, Upsert(xx, sl, e), t)| <= |Within(xx, sl, t)| + (if In(t, xx(e.id)) then 1 else 0)
  {
    WithinWithout(xx, sl, t, e.id);
    WithinInsert(xx, Without(sl, e.id), t, e);
  }

  // ---- ranges as consecutive pieces -----------------------------------------------------------

  lemma {:induction false} WithinAbove(xx: Hasher, sl: seq<Element>, t: Tuple)
    requires forall e | e in sl :: t.to < xx(e.id)
    ensures Within(xx, sl, t) == []
  {
    if sl != [] {
      WithinAbove(xx, sl[1..], t);
    }
  }

  /** The elements of two adjacent ranges, one after the other, are those of their union. */
  lemma {:induction false} WithinSplit(xx: Hasher, sl: seq<Element>, a: Tuple, b: Tuple, t: Tuple)
    requires Ordered(xx, sl)
    requires a.from == t.from && b.to == t.to && a.from <= a.to && a.to + 1 == b.from && b.from <= b.to
    ensures Within(xx, sl, t) == Within(xx, sl, a) + Within(xx, sl, b)
  {
    if sl != [] {
      var e, rest := sl[0], sl[1..];
      WithinSplit(xx, rest, a, b, t);
      if a.to < xx(e.id) {
        forall f | f in rest
          ensures a.to < xx(f.id)
        {
          assert Before(xx, e.id, f.id);
        }
        WithinAbove(xx, rest, a);
      }
    }
  }
}
