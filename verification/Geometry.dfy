/** The arithmetic of `app/ldiff/hashrange.go`: 64-bit hash ranges, how a range is cut into
    `divideFactor` tuples and how a hash finds its tuple.  Go's `uint64` wraps, so every
    operation that can leave [0, 2^64) is written with `Wrap`. */
module Geometry {

  const TWO64: int := 0x1_0000_0000_0000_0000

  type u64 = x: int | 0 <= x < 0x1_0000_0000_0000_0000

  /** What Go keeps of an integer in a uint64, and how many words it drops. */
  function Wrap(x: int): u64 {
    x % 0x1_0000_0000_0000_0000
  }

  function Words(x: int): int {
    x / 0x1_0000_0000_0000_0000
  }

  /** Go's rangeTuple: both ends are inclusive. */
  datatype Tuple = Tuple(from: u64, to: u64)

  const Top: Tuple := Tuple(0, TWO64 - 1)

  /** Number of hashes in a tuple, read cyclically; the top range has 2^64 of them. */
  function Width(t: Tuple): (w: int)
    ensures 1 <= w <= TWO64
    ensures t.from <= t.to ==> w == t.to - t.from + 1
  {
    Wrap(t.to - t.from) + 1
  }

  /** The hash lies in the tuple, read cyclically from `t.from`. */
  predicate Holds(t: Tuple, x: u64) {
    Wrap(x - t.from) < Width(t)
  }

  /** Offset of the first hash of piece j, and one past the last. */
  function Low(w: int, df: int, j: int): int
    requires 2 <= df
  {
    j * (w / df)
  }

  function High(w: int, df: int, j: int): int
    requires 2 <= df
  {
    if j == df - 1 then w else (j + 1) * (w / df)
  }

  /** The j-th of the df pieces of `t`: equal pieces, the last one taking the remainder. */
  function Child(t: Tuple, df: int, j: int): Tuple
    requires 2 <= df
  {
    Tuple(Wrap(t.from + Low(Width(t), df, j)), Wrap(t.from + High(Width(t), df, j) - 1))
  }

  function Children(t: Tuple, df: int): seq<Tuple>
    requires 2 <= df
  {
    seq(df, j requires 0 <= j < df => Child(t, df, j))
  }

  // ---- small facts about products and remainders ------------------------------------------

  lemma WrapIdentity(x: int)
    requires 0 <= x < TWO64
    ensures Wrap(x) == x
  {
  }

  lemma WrapCongruent(x: int, y: int, m: int)
    requires x == y + m * 0x1_0000_0000_0000_0000
    ensures Wrap(x) == Wrap(y)
  {
  }

  /** Wrapping inside a sum does not change the wrapped sum. */
  lemma WrapAdd(x: int, y: int)
    ensures Wrap(Wrap(x) + y) == Wrap(x + y)
  {
    WrapCongruent(x + y, Wrap(x) + y, Words(x));
  }

  lemma SmallMultiple(k: int, d: int, e: int)
    requires k * d == e && -d < e < d
    ensures k == 0
  {
    if k >= 1 {
      MulMono(1, k, d);
      assert false;
    } else if k <= -1 {
      MulMono(k, -1, d);
      assert false;
    }
  }

  lemma DivModUnique(x: int, d: int, q: int, r: int)
    requires 0 < d && 0 <= r < d && x == q * d + r
    ensures x / d == q && x % d == r
  {
    var q', r' := x / d, x % d;
    assert x == q' * d + r';
    assert (q - q') * d == r' - r;
    SmallMultiple(q - q', d, r' - r);
  }

  lemma MulMono(a: int, b: int, c: int)
    requires a <= b && 0 <= c
    ensures a * c <= b * c
  {
  }

  lemma {:induction false} MulDivCancel(a: int, d: int)
    requires 0 < d
    ensures (a * d) / d == a && (a * d) % d == 0
  {
    DivModUnique(a * d, d, a, 0);
  }

  // ---- genTupleRanges ---------------------------------------------------------------------

  /** hashrange.go computes `perRange` and `align` from `to - from` because the width of the
      top range does not fit in a uint64.  They are the quotient and the remainder of the
      width all the same. */
  lemma PerRangeAlign(w: int, df: int)
    requires 1 <= w <= TWO64 && 2 <= df
    ensures var align := ((w - 1) % df + 1) % df;
            var perRange := (w - 1) / df + (if align == 0 then 1 else 0);
            align == w % df && perRange == w / df
  {
    var q, r := (w - 1) / df, (w - 1) % df;
    assert w - 1 == q * df + r;
    if r + 1 == df {
      assert w == (q + 1) * df + 0;
      DivModUnique(w, df, q + 1, 0);
      DivModUnique(r + 1, df, 1, 0);
    } else {
      DivModUnique(w, df, q, r + 1);
      DivModUnique(r + 1, df, 0, r + 1);
    }
  }

  /** The lines that compute both. */
  method PerRangeOf(from: u64, to: u64, df: int) returns (perRange: int, align: int)
    requires 2 <= df
    ensures perRange == Width(Tuple(from, to)) / df && align == Width(Tuple(from, to)) % df
  {
    PerRangeAlign(Width(Tuple(from, to)), df);
    perRange := Wrap(to - from) / df;
    align := (Wrap(to - from) % df + 1) % df;
    if align == 0 {
      perRange := perRange + 1;
    }
  }

  /** genTupleRanges, with the source's loop and running lower end `j`. */
  method GenTupleRanges(from: u64, to: u64, divideFactor: int) returns (prepare: seq<Tuple>)
    requires 2 <= divideFactor
    ensures prepare == Children(Tuple(from, to), divideFactor)
  {
    hide Low, High, Wrap, Width, Child;
    var df := divideFactor;
    ghost var t := Tuple(from, to);
    ghost var w := Width(t);
    var perRange, align := PerRangeOf(from, to, df);
    FirstPiece(from, w, df);
    var j := from;
    prepare := [];
    var i := 0;
    while i < df
      invariant 0 <= i <= df && |prepare| == i
      invariant i < df ==> perRange == w / df && j == Wrap(from + Low(w, df, i))
      invariant forall m :: 0 <= m < i ==> prepare[m] == Child(t, df, m)
    {
      if i == df - 1 {
        perRange := perRange + align;
      }
      PieceAt(t, df, i, j, perRange);
      prepare := prepare + [Tuple(j, Wrap(j + perRange - 1))];
      j := Wrap(j + perRange);
      i := i + 1;
    }
    assert prepare == Children(t, df);
  }

  lemma FirstPiece(from: u64, w: int, df: int)
    requires 2 <= df
    ensures Low(w, df, 0) == 0 && Wrap(from + Low(w, df, 0)) == from
  {
  }

  /** One round of the loop makes one piece. */
  lemma PieceAt(t: Tuple, df: int, i: int, j: u64, length: int)
    requires 2 <= df && 0 <= i < df && j == Wrap(t.from + Low(Width(t), df, i))
    requires length == Width(t) / df + if i == df - 1 then Width(t) % df else 0
    ensures Tuple(j, Wrap(j + length - 1)) == Child(t, df, i)
    ensures i < df - 1 ==> Wrap(j + length) == Wrap(t.from + Low(Width(t), df, i + 1))
  {
    hide Low, High, Wrap, Width;
    var w := Width(t);
    PieceLength(w, df, i);
    WrapAdd(t.from + Low(w, df, i), length - 1);
    WrapAdd(t.from + Low(w, df, i), length);
  }

  /** A piece is perRange long, the last one longer by align, and the next one starts where it ends. */
  lemma PieceLength(w: int, df: int, i: int)
    requires 0 <= w && 2 <= df && 0 <= i < df
    ensures High(w, df, i) == Low(w, df, i) + w / df + (if i == df - 1 then w % df else 0)
    ensures i < df - 1 ==> Low(w, df, i + 1) == High(w, df, i)
  {
    LastPiece(w, df);
    assert (i + 1) * (w / df) == i * (w / df) + w / df;
  }

  lemma LastPiece(w: int, df: int)
    requires 0 <= w && 2 <= df
    ensures w == (df - 1) * (w / df) + (w / df + w % df)
  {
    assert (df - 1) * (w / df) == df * (w / df) - w / df;
  }

  lemma PieceBounds(w: int, df: int, j: int)
    requires 2 <= df <= w && 0 <= j < df
    ensures 0 <= Low(w, df, j) < High(w, df, j) <= w
    ensures j + 1 < df ==> High(w, df, j) == Low(w, df, j + 1)
  {
    var q := w / df;
    MulMono(j + 1, df, q);
    MulMono(0, j, q);
    assert (j + 1) * q == j * q + q;
    assert w == q * df + w % df;
    assert df * q == q * df;
  }

  lemma PieceWidth(from: u64, lo: int, hi: int)
    requires 0 <= lo < hi <= TWO64
    ensures Wrap(Wrap(from + hi - 1) - Wrap(from + lo)) == hi - 1 - lo
  {
    var a: int, b: int := Wrap(from + hi - 1), Wrap(from + lo);
    WrapCongruent(a - b, hi - 1 - lo, Words(from + lo) - Words(from + hi - 1));
    WrapIdentity(hi - 1 - lo);
  }

  lemma PieceOffset(from: u64, lo: int, x: u64)
    ensures Wrap(x - Wrap(from + lo)) == Wrap(Wrap(x - from) - lo)
  {
    WrapCongruent(x - Wrap(from + lo), Wrap(x - from) - lo,
                  Words(x - from) + Words(from + lo));
  }

  lemma OffsetBetween(o: int, lo: int, hi: int)
    requires 0 <= o < TWO64 && 0 <= lo < hi <= TWO64
    ensures Wrap(o - lo) < hi - lo <==> lo <= o < hi
  {
    if lo <= o {
      WrapIdentity(o - lo);
    } else {
      WrapCongruent(o - lo, o - lo + TWO64, -1);
      WrapIdentity(o - lo + TWO64);
    }
  }

  lemma HoldsSpan(c: Tuple, from: u64, lo: int, hi: int, x: u64)
    requires 0 <= lo < hi <= TWO64 && c == Tuple(Wrap(from + lo), Wrap(from + hi - 1))
    ensures Width(c) == hi - lo
    ensures Holds(c, x) <==> lo <= Wrap(x - from) < hi
  {
    PieceWidth(from, lo, hi);
    PieceOffset(from, lo, x);
    OffsetBetween(Wrap(x - from), lo, hi);
  }

  /** A hash is in piece j exactly when its offset is between the piece's ends. */
  lemma HoldsPiece(t: Tuple, df: int, j: int, x: u64)
    requires 2 <= df <= Width(t) && 0 <= j < df
    ensures Width(Child(t, df, j)) == High(Width(t), df, j) - Low(Width(t), df, j)
    ensures Holds(Child(t, df, j), x) <==>
              Low(Width(t), df, j) <= Wrap(x - t.from) < High(Width(t), df, j)
  {
    PieceBounds(Width(t), df, j);
    HoldsSpan(Child(t, df, j), t.from, Low(Width(t), df, j), High(Width(t), df, j), x);
  }

  lemma {:induction false} FindPiece(w: int, df: int, o: int, n: int) returns (j: int)
    requires 2 <= df <= w && 0 <= o < w && 1 <= n <= df
    requires o < High(w, df, n - 1)
    ensures 0 <= j < n && Low(w, df, j) <= o < High(w, df, j)
    decreases n
  {
    j := n - 1;
    PieceBounds(w, df, j);
    if o < Low(w, df, j) {
      PieceBounds(w, df, j - 1);
      j := FindPiece(w, df, o, n - 1);
    }
  }

  lemma SomePiece(t: Tuple, df: int, x: u64) returns (j: int)
    requires 2 <= df <= Width(t) && Holds(t, x)
    ensures 0 <= j < df && Holds(Child(t, df, j), x)
  {
    hide Low, Wrap, Child;
    var w := Width(t);
    j := FindPiece(w, df, Wrap(x - t.from), df);
    HoldsPiece(t, df, j, x);
  }

  lemma PieceInRange(t: Tuple, df: int, j: int, x: u64)
    requires 2 <= df <= Width(t) && 0 <= j < df && Holds(Child(t, df, j), x)
    ensures Holds(t, x)
  {
    hide Low, High, Wrap, Child;
    HoldsPiece(t, df, j, x);
    PieceBounds(Width(t), df, j);
  }

  lemma OnlyPiece(t: Tuple, df: int, i: int, j: int, x: u64)
    requires 2 <= df <= Width(t) && 0 <= i < df && 0 <= j < df && Holds(Child(t, df, i), x) && Holds(Child(t, df, j), x)
    ensures i == j
  {
    hide Low, High, Wrap, Child, Width, Holds;
    HoldsPiece(t, df, i, x);
    HoldsPiece(t, df, j, x);
    if i < j {
      PiecesOrdered(Width(t), df, i, j);
    } else if j < i {
      PiecesOrdered(Width(t), df, j, i);
    }
  }

  lemma OuterEnds(t: Tuple, df: int)
    requires 2 <= df <= Width(t)
    ensures Child(t, df, 0).from == t.from && Child(t, df, df - 1).to == t.to
  {
    hide Low;
    FirstPiece(t.from, Width(t), df);
    WrapIdentity(t.from);
    WrapCongruent(t.from + Width(t) - 1, t.to, if t.from <= t.to then 0 else 1);
    WrapIdentity(t.to);
  }

  lemma NextPiece(t: Tuple, df: int, j: int)
    requires 2 <= df <= Width(t) && 0 <= j < df - 1
    ensures Child(t, df, j + 1).from == Wrap(Child(t, df, j).to + 1)
  {
    hide Low, High, Wrap, Width;
    PieceLength(Width(t), df, j);
    WrapAdd(t.from + High(Width(t), df, j) - 1, 1);
  }

  lemma PiecesOrdered(w: int, df: int, i: int, j: int)
    requires 2 <= df <= w && 0 <= i < j < df
    ensures High(w, df, i) <= Low(w, df, j)
  {
    MulMono(i + 1, j, w / df);
  }

  /** genTupleRanges partitions every range at least `df` wide, wraparound included: a hash of
      the range lies in one tuple, no other hash lies in any, no two tuples share one, and
      each tuple starts right after the previous one ends. */
  lemma TuplesPartition(t: Tuple, df: int)
    requires 2 <= df <= Width(t)
    ensures forall x: u64 :: Holds(t, x) <==> exists j :: 0 <= j < df && Holds(Child(t, df, j), x)
    ensures forall x: u64, i, j | 0 <= i < df && 0 <= j < df :: Holds(Child(t, df, i), x) && Holds(Child(t, df, j), x) ==> i == j
    ensures Child(t, df, 0).from == t.from && Child(t, df, df - 1).to == t.to
    ensures forall j :: 0 <= j < df - 1 ==>
                          Child(t, df, j + 1).from == Wrap(Child(t, df, j).to + 1)
  {
    hide Low, High, Wrap, Width, Holds, Child;
    forall x: u64
      ensures Holds(t, x) <==> exists j :: 0 <= j < df && Holds(Child(t, df, j), x)
    {
      if Holds(t, x) {
        var j := SomePiece(t, df, x);
      }
      forall j | 0 <= j < df && Holds(Child(t, df, j), x)
        ensures Holds(t, x)
      {
        PieceInRange(t, df, j, x);
      }
    }
    forall x: u64, i, j | 0 <= i < df && 0 <= j < df && Holds(Child(t, df, i), x) && Holds(Child(t, df, j), x)
      ensures i == j
    {
      OnlyPiece(t, df, i, j, x);
    }
    OuterEnds(t, df);
    forall j | 0 <= j < df - 1
      ensures Child(t, df, j + 1).from == Wrap(Child(t, df, j).to + 1)
    {
      NextPiece(t, df, j);
    }
  }

  // ---- getBottomRange ---------------------------------------------------------------------

  /** The key of a bucket number. */
  function BucketKey(t: Tuple, df: int, perRange: int, align: int, bucket: int): Tuple {
    var to := Wrap(t.from - 1 + (bucket + 1) * perRange);
    Tuple(Wrap(t.from + bucket * perRange), if bucket == df - 1 then Wrap(to + align) else to)
  }

  /** The key getBottomRange looks up.  The source divides by `perRange`, which is zero for a
      range narrower than the divide factor. */
  function BottomTuple(t: Tuple, df: int, x: u64): Tuple
    requires 2 <= df <= Width(t)
  {
    PieceBounds(Width(t), df, 0);
    var perRange := Width(t) / df;
    var align := Width(t) % df;
    BucketKey(t, df, perRange, align, Wrap(x - t.from) / perRange)
  }

  method GetBottomTuple(t: Tuple, df: int, x: u64) returns (r: Tuple)
    requires 2 <= df <= Width(t)
    ensures r == BottomTuple(t, df, x)
  {
    PieceBounds(Width(t), df, 0);
    var perRange, align := PerRangeOf(t.from, t.to, df);
    var bucket := Wrap(x - t.from) / perRange;
    r := Tuple(Wrap(t.from + bucket * perRange), Wrap(t.from - 1 + (bucket + 1) * perRange));
    if bucket == df - 1 {
      r := r.(to := Wrap(r.to + align));
    }
  }

  lemma BucketOf(o: int, q: int)
    requires 0 <= o && 1 <= q
    ensures 0 <= o / q && (o / q) * q <= o < (o / q + 1) * q
  {
    assert o == (o / q) * q + o % q;
    if o / q < 0 {
      MulMono(o / q, -1, q);
    }
  }

  /** The key getBottomRange computes is the tuple of genTupleRanges that holds the hash. */
  ghost predicate FindsPiece(t: Tuple, df: int, x: u64)
    requires 2 <= df <= Width(t)
  {
    exists j :: 0 <= j < df && BottomTuple(t, df, x) == Child(t, df, j) && Holds(Child(t, df, j), x)
  }

  /** When the factor divides the width, all pieces are equally long, and an offset falls into one of them. */
  lemma BucketInRange(w: int, df: int, o: int)
    requires 2 <= df <= w && w % df == 0 && 0 <= o < w
    ensures 1 <= w / df && var j := o / (w / df); 0 <= j < df && Low(w, df, j) <= o < High(w, df, j)
  {
    PieceBounds(w, df, 0);
    var q := w / df;
    var j := o / q;
    BucketOf(o, q);
    assert w == q * df && df * q == q * df;
    if j >= df {
      MulMono(df, j, q);
      assert false;
    }
  }

  lemma AlignedPiece(w: int, df: int, j: int)
    requires 2 <= df <= w && w % df == 0 && 0 <= j < df
    ensures Low(w, df, j) == j * (w / df) && High(w, df, j) == (j + 1) * (w / df)
  {
    LastPiece(w, df);
    assert (df - 1 + 1) * (w / df) == (df - 1) * (w / df) + w / df;
  }

  lemma AlignedKey(t: Tuple, df: int, j: int)
    requires 2 <= df <= Width(t) && Width(t) % df == 0 && 0 <= j < df
    ensures BucketKey(t, df, Width(t) / df, 0, j) == Child(t, df, j)
  {
    hide Low, High, Width, Wrap;
    var q := Width(t) / df;
    AlignedPiece(Width(t), df, j);
    WrapAdd(t.from - 1 + (j + 1) * q, 0);
    assert t.from + (j + 1) * q - 1 == t.from - 1 + (j + 1) * q;
  }

  lemma BottomAligned(t: Tuple, df: int, x: u64)
    requires 2 <= df <= Width(t) && Width(t) % df == 0 && 0 <= Wrap(x - t.from) < Width(t)
    ensures 1 <= Width(t) / df && BottomTuple(t, df, x) == Child(t, df, Wrap(x - t.from) / (Width(t) / df))
  {
    hide Low, High, Width, Wrap, Child, BucketKey;
    BucketInRange(Width(t), df, Wrap(x - t.from));
    AlignedKey(t, df, Wrap(x - t.from) / (Width(t) / df));
  }

  /** On a range whose width the factor divides, getBottomRange finds the tuple of the hash. */
  lemma BottomIsPiece(t: Tuple, df: int, x: u64)
    requires 2 <= df <= Width(t) && Width(t) % df == 0 && Holds(t, x)
    ensures FindsPiece(t, df, x)
  {
    var w, q, o := Width(t), Width(t) / df, Wrap(x - t.from);
    var j := o / q;
    BucketInRange(w, df, o);
    BottomAligned(t, df, x);
    hide BottomTuple, Wrap, Low, High, Width;
    HoldsPiece(t, df, j, x);
    assert BottomTuple(t, df, x) == Child(t, df, j);
  }

  /** Wrapping `t.from + o` and going back recovers an offset inside the word. */
  lemma OffsetBack(from: u64, o: int)
    requires 0 <= o < TWO64
    ensures Wrap(Wrap(from + o) - from) == o
  {
    WrapCongruent(Wrap(from + o) - from, o, -(Words(from + o)));
    WrapIdentity(o);
  }

  lemma OffsetsApart(from: u64, a: int, b: int)
    requires 0 <= a < b < TWO64
    ensures Wrap(from + a) != Wrap(from + b)
  {
    OffsetBack(from, a);
    OffsetBack(from, b);
  }

  lemma PastPieces(w: int, df: int, j: int)
    requires 2 <= df <= w && w % df != 0 && 0 <= j < df
    ensures 0 <= Low(w, df, j) < df * (w / df) < w
  {
    PieceBounds(w, df, j);
    var q := w / df;
    assert w == q * df + w % df && df * q == q * df;
    MulMono(j + 1, df, q);
    assert (j + 1) * q == j * q + q;
  }

  /** Bucket number df starts where no tuple starts. */
  lemma BucketDfIsNoPiece(t: Tuple, df: int, j: int)
    requires 2 <= df <= Width(t) && Width(t) % df != 0 && 0 <= j < df
    ensures 0 <= df * (Width(t) / df) < Width(t)
    ensures Child(t, df, j).from != Wrap(t.from + df * (Width(t) / df))
  {
    hide Low, High, Width, Wrap;
    PastPieces(Width(t), df, j);
    OffsetsApart(t.from, Low(Width(t), df, j), df * (Width(t) / df));
  }

  lemma PastKey(t: Tuple, df: int, x: u64)
    requires 2 <= df <= Width(t) && Wrap(x - t.from) == df * (Width(t) / df)
    ensures BottomTuple(t, df, x).from == Wrap(t.from + df * (Width(t) / df))
  {
    hide Wrap, Width;
    PieceBounds(Width(t), df, 0);
    MulDivCancel(df, Width(t) / df);
  }

  lemma InsideOffset(t: Tuple, o: int)
    requires 0 <= o < Width(t)
    ensures Wrap(Wrap(t.from + o) - t.from) == o && Holds(t, Wrap(t.from + o))
  {
    OffsetBack(t.from, o);
  }

  /** Otherwise the first hash past df equal pieces goes to a bucket numbered df, whose key is
      none of the tuples genTupleRanges made. */
  lemma BottomMissesPiece(t: Tuple, df: int) returns (x: u64)
    requires 2 <= df <= Width(t) && Width(t) % df != 0
    ensures Holds(t, x)
    ensures forall j :: 0 <= j < df ==> BottomTuple(t, df, x) != Child(t, df, j)
  {
    hide Wrap, Width, Low, High, Holds, Child, BottomTuple, BucketKey;
    var past := df * (Width(t) / df);
    BucketDfIsNoPiece(t, df, 0);
    x := Wrap(t.from + past);
    InsideOffset(t, past);
    PastKey(t, df, x);
    forall j | 0 <= j < df
      ensures BottomTuple(t, df, x) != Child(t, df, j)
    {
      BucketDfIsNoPiece(t, df, j);
    }
  }

  /** getBottomRange agrees with genTupleRanges on every hash of the range if and only if the
      divide factor divides its width. */
  lemma BottomAgreesIff(t: Tuple, df: int)
    requires 2 <= df <= Width(t)
    ensures (forall x: u64 | Holds(t, x) :: FindsPiece(t, df, x)) <==> Width(t) % df == 0
  {
    if Width(t) % df == 0 {
      forall x: u64 | Holds(t, x)
        ensures FindsPiece(t, df, x)
      {
        BottomIsPiece(t, df, x);
      }
    } else {
      var x := BottomMissesPiece(t, df);
    }
  }
}
