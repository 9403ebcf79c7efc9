/** With a divide factor of 2^k every range the tree can reach is a bucket: the level-n range
    has 2^(64 - k*n) hashes and starts at a multiple of that.  A bucket is fixed by its level
    and any one of its hashes, which is what the tree and protocol proofs work with. */
module Buckets {
  import opened Geometry

  function Pow2(n: nat): (p: nat)
    ensures p >= 1
  {
    if n == 0 then 1 else 2 * Pow2(n - 1)
  }

  lemma {:induction false} Pow2Add(a: nat, b: nat)
    ensures Pow2(a + b) == Pow2(a) * Pow2(b)
  {
    if a > 0 {
      Pow2Add(a - 1, b);
      assert Pow2(a) * Pow2(b) == 2 * (Pow2(a - 1) * Pow2(b));
    }
  }

  lemma Pow2Of4()
    ensures Pow2(4) == 16
  {
  }

  lemma Pow2Of64()
    ensures Pow2(64) == TWO64
  {
    Pow2Of4();
    hide Pow2;
    Pow2Add(4, 4);
    Pow2Add(8, 8);
    Pow2Add(16, 16);
    Pow2Add(32, 32);
  }

  lemma Pow2Divides(a: nat, b: nat)
    requires b <= a
    ensures Pow2(a) % Pow2(b) == 0 && Pow2(a) == Pow2(a - b) * Pow2(b)
    ensures Pow2(b) <= Pow2(a)
    ensures b < a ==> Pow2(b) < Pow2(a)
  {
    Pow2Add(a - b, b);
    MulDivCancel(Pow2(a - b), Pow2(b));
    MulMono(1, Pow2(a - b), Pow2(b));
    if b < a {
      assert Pow2(a - b) >= 2;
      MulMono(2, Pow2(a - b), Pow2(b));
    }
  }

  /** The factor divides the width of the top range, so that getBottomRange is sound there
      (Geometry.BottomAgreesIff), exactly when it is a power of two. */
  lemma {:induction false} DividesPow2Iff(df: int, n: nat)
    requires 1 <= df
    ensures Pow2(n) % df == 0 <==> exists k: nat :: k <= n && df == Pow2(k)
  {
    if k: nat :| k <= n && df == Pow2(k) {
      Pow2Divides(n, k);
    } else if Pow2(n) % df == 0 {
      var k := ExponentOf(df, n);
      assert false;
    }
  }

  lemma {:induction false} ExponentOf(df: int, n: nat) returns (k: nat)
    requires 1 <= df && Pow2(n) % df == 0
    ensures k <= n && df == Pow2(k)
  {
    var m := Pow2(n) / df;
    assert m * df == Pow2(n);
    if df == 1 {
      k := 0;
    } else if n == 0 {
      DivModUnique(1, df, 0, 1);
      assert false;
    } else if df % 2 == 0 {
      var d := df / 2;
      assert m * d == Pow2(n - 1) by { assert m * df == m * (2 * d) == 2 * (m * d); }
      MulDivCancel(m, d);
      k := ExponentOf(d, n - 1);
      k := k + 1;
    } else {
      EvenProduct(m, df);
      var h := m / 2;
      assert h * df == Pow2(n - 1) by { assert m * df == (2 * h) * df == 2 * (h * df); }
      MulDivCancel(h, df);
      k := ExponentOf(df, n - 1);
    }
  }

  lemma EvenProduct(m: int, d: int)
    requires d % 2 == 1 && (m * d) % 2 == 0
    ensures m % 2 == 0
  {
    var b := d / 2;
    assert m * d == m * (2 * b + 1) == 2 * (m * b) + m;
  }

  lemma TopDivisibleIff(df: int)
    requires 2 <= df
    ensures Width(Top) % df == 0 <==> exists k: nat :: k <= 64 && df == Pow2(k)
  {
    Pow2Of64();
    DividesPow2Iff(df, 64);
  }

  // ---- buckets ----------------------------------------------------------------------------

  /** Level n exists: the ranges of that level have at least one hash. */
  predicate HasLevel(k: nat, n: int) {
    1 <= k && 0 <= n && k * n <= 64
  }

  lemma LevelBound(k: nat, n: int)
    requires HasLevel(k, n)
    ensures n <= 64 / k
  {
    var d := 64 / k;
    assert 64 == d * k + 64 % k && n * k == k * n && (d + 1) * k == d * k + k;
    if n > d {
      MulMono(d + 1, n, k);
      assert false;
    }
  }

  function LevelWidth(k: nat, n: int): (w: nat)
    requires HasLevel(k, n)
    ensures w >= 1
  {
    Pow2(64 - k * n)
  }

  predicate In(t: Tuple, x: int) {
    t.from <= x <= t.to
  }

  predicate Sub(a: Tuple, b: Tuple) {
    b.from <= a.from <= a.to <= b.to
  }

  predicate IsBucket(k: nat, n: int, t: Tuple) {
    && HasLevel(k, n)
    && t.from <= t.to
    && t.to - t.from + 1 == LevelWidth(k, n)
    && t.from % LevelWidth(k, n) == 0
  }

  lemma LevelDivides(k: nat, m: int, n: int)
    requires HasLevel(k, n) && 0 <= m <= n
    ensures HasLevel(k, m)
    ensures LevelWidth(k, m) % LevelWidth(k, n) == 0 && LevelWidth(k, n) <= LevelWidth(k, m) <= TWO64
    ensures m < n ==> LevelWidth(k, n) < LevelWidth(k, m)
  {
    MulMono(m, n, k);
    assert m * k == k * m && n * k == k * n;
    if m < n {
      MulMono(m + 1, n, k);
      assert (m + 1) * k == k * m + k;
    }
    Pow2Divides(64 - k * m, 64 - k * n);
    MulMono(0, m, k);
    Pow2Divides(64, 64 - k * m);
    Pow2Of64();
  }

  lemma MultipleOfMultiple(x: int, a: int, b: int)
    requires 0 < b && 0 < a && a % b == 0
    ensures (x - x % a) % b == 0
    ensures x - x % a <= x - x % b
    ensures x - x % b + b <= x - x % a + a
    ensures x % a % b == x % b
  {
    var p, q := x / a, a / b;
    assert x == p * a + x % a && a == q * b;
    assert p * (q * b) == (p * q) * b;
    MulDivCancel(p * q, b);
    var r := x % a;
    var s := r / b;
    assert r == s * b + r % b;
    assert x == (p * q + s) * b + r % b by { assert (p * q + s) * b == (p * q) * b + s * b; }
    DivModUnique(x, b, p * q + s, r % b);
    if s >= q {
      MulMono(q, s, b);
      assert false;
    }
    if s < 0 {
      MulMono(s, -1, b);
      assert false;
    }
    MulMono(s + 1, q, b);
    assert (s + 1) * b == s * b + b;
    MulMono(0, s, b);
  }

  /** The level-n range of a hash. */
  function Bucket(k: nat, n: int, x: u64): (t: Tuple)
    requires HasLevel(k, n)
    ensures IsBucket(k, n, t) && In(t, x)
  {
    var w := LevelWidth(k, n);
    LevelDivides(k, 0, n);
    Pow2Of64();
    MultipleOfMultiple(x, TWO64, w);
    assert x % TWO64 == x;
    MultipleOfMultiple(x, w, w);
    Tuple(x - x % w, x - x % w + w - 1)
  }

  lemma BucketUnique(k: nat, n: int, t: Tuple, x: u64)
    requires IsBucket(k, n, t) && In(t, x)
    ensures t == Bucket(k, n, x)
  {
    var w := LevelWidth(k, n);
    var q := t.from / w;
    assert t.from == q * w;
    DivModUnique(x, w, q, x - t.from);
  }

  lemma BucketProper(k: nat, n: int, t: Tuple)
    requires IsBucket(k, n, t)
    ensures HasLevel(k, n) && 1 <= k && 0 <= n <= 64 && t.from <= t.to
  {
    MulMono(1, k, n);
  }

  lemma TopIsBucket(k: nat, x: u64)
    requires 1 <= k
    ensures IsBucket(k, 0, Top) && Top == Bucket(k, 0, x)
  {
    Pow2Of64();
    BucketUnique(k, 0, Top, x);
  }

  lemma BucketNest(k: nat, m: int, n: int, x: u64)
    requires HasLevel(k, n) && 0 <= m <= n
    ensures HasLevel(k, m) && Sub(Bucket(k, n, x), Bucket(k, m, x))
    ensures m < n ==> Bucket(k, n, x) != Bucket(k, m, x)
  {
    LevelDivides(k, m, n);
    MultipleOfMultiple(x, LevelWidth(k, m), LevelWidth(k, n));
  }

  /** Two hashes of one bucket share every wider bucket. */
  lemma BucketShared(k: nat, m: int, n: int, x: u64, y: u64)
    requires HasLevel(k, n) && 0 <= m <= n && In(Bucket(k, n, x), y)
    ensures HasLevel(k, m) && Bucket(k, m, x) == Bucket(k, m, y)
  {
    BucketNest(k, m, n, x);
    BucketUnique(k, m, Bucket(k, m, x), y);
  }

  /** A bucket strictly inside another has a higher level, and the next wider bucket around
      it is still inside. */
  lemma StrictlyInside(k: nat, m: int, t: Tuple, n: int, d: Tuple)
    requires IsBucket(k, m, t) && IsBucket(k, n, d) && Sub(d, t) && d != t
    ensures m < n && HasLevel(k, n - 1) && Sub(Bucket(k, n - 1, d.from), t)
    ensures t == Bucket(k, m, d.from)
  {
    if n <= m {
      LevelDivides(k, n, m);
      assert false;
    }
    BucketUnique(k, m, t, d.from);
    LevelDivides(k, n - 1, n);
    BucketNest(k, m, n - 1, d.from);
  }

  /** Two buckets are nested or share no hash. */
  lemma NestedOrDisjoint(k: nat, m: int, t: Tuple, n: int, d: Tuple)
    requires IsBucket(k, m, t) && IsBucket(k, n, d)
    ensures Sub(d, t) || Sub(t, d) || d.to < t.from || t.to < d.from
  {
    if !(d.to < t.from || t.to < d.from) {
      var x := if t.from <= d.from then d.from else t.from;
      BucketUnique(k, m, t, x);
      BucketUnique(k, n, d, x);
      if m <= n {
        BucketNest(k, m, n, x);
      } else {
        BucketNest(k, n, m, x);
      }
    }
  }

  // ---- children of a bucket ----------------------------------------------------------------

  lemma WideEnough(k: nat, n: int)
    requires HasLevel(k, n) && Pow2(k) <= LevelWidth(k, n)
    ensures HasLevel(k, n + 1) && LevelWidth(k, n) == LevelWidth(k, n + 1) * Pow2(k)
  {
    var a := 64 - k * n;
    if a < k {
      Pow2Divides(k, a);
      assert false;
    }
    assert k * (n + 1) == k * n + k;
    Pow2Divides(a, k);
  }

  lemma NextLevelWide(k: nat, n: int)
    requires HasLevel(k, n + 1) && 0 <= n
    ensures HasLevel(k, n) && Pow2(k) <= LevelWidth(k, n)
  {
    assert k * (n + 1) == k * n + k;
    Pow2Divides(64 - k * n, k);
  }

  lemma FactorAtLeastTwo(k: nat)
    requires 1 <= k
    ensures 2 <= Pow2(k)
  {
    Pow2Divides(k, 1);
    assert Pow2(1) == 2;
  }

  /** Ends of piece j of a bucket cut into pieces of width w. */
  lemma PieceEnds(t: Tuple, df: int, j: int, w: int)
    requires 2 <= df && 1 <= w && 0 <= j < df && t.from <= t.to
    requires t.to - t.from + 1 == w * df
    ensures 0 <= j * w && (j + 1) * w == j * w + w && j * w + w <= w * df
    ensures Child(t, df, j).from == t.from + j * w && Child(t, df, j).to == t.from + (j + 1) * w - 1
  {
    MulDivCancel(w, df);
    assert Width(t) / df == w;
    MulMono(0, j, w);
    MulMono(j + 1, df, w);
    assert (j + 1) * w == j * w + w;
    assert df * w == w * df;
    WrapIdentity(t.from + j * w);
    WrapIdentity(t.from + (j + 1) * w - 1);
  }

  lemma MultipleShift(a: int, j: int, w: int)
    requires 1 <= w && a % w == 0
    ensures (a + j * w) % w == 0
  {
    var p := a / w;
    assert a == p * w;
    assert a + j * w == (p + j) * w;
    MulDivCancel(p + j, w);
  }

  /** Piece j of a wide bucket: the j-th bucket of the next level. */
  lemma ChildIsBucket(k: nat, n: int, t: Tuple, j: int)
    requires IsBucket(k, n, t) && Pow2(k) <= LevelWidth(k, n) && 0 <= j < Pow2(k)
    ensures 2 <= Pow2(k) && HasLevel(k, n + 1)
    ensures var w := LevelWidth(k, n + 1);
            && Child(t, Pow2(k), j).from == t.from + j * w && Child(t, Pow2(k), j).to == t.from + (j + 1) * w - 1
            && IsBucket(k, n + 1, Child(t, Pow2(k), j))
            && Sub(Child(t, Pow2(k), j), t) && Child(t, Pow2(k), j) != t
  {
    FactorAtLeastTwo(k);
    WideEnough(k, n);
    var w := LevelWidth(k, n + 1);
    PieceEnds(t, Pow2(k), j, w);
    LevelDivides(k, n, n + 1);
    assert t.from % w == 0 by { MultipleOfMultiple(t.from, LevelWidth(k, n), w); }
    MultipleShift(t.from, j, w);
  }

  lemma HoldsIsIn(t: Tuple, x: u64)
    requires t.from <= t.to
    ensures Holds(t, x) <==> In(t, x)
  {
    if x >= t.from {
      WrapIdentity(x - t.from);
    } else {
      WrapCongruent(x - t.from, x - t.from + TWO64, -1);
      WrapIdentity(x - t.from + TWO64);
    }
  }

  lemma BucketDivisible(k: nat, n: int, t: Tuple)
    requires IsBucket(k, n, t) && Pow2(k) <= LevelWidth(k, n)
    ensures 2 <= Pow2(k) <= Width(t) && Width(t) % Pow2(k) == 0
  {
    FactorAtLeastTwo(k);
    WideEnough(k, n);
    MulDivCancel(LevelWidth(k, n + 1), Pow2(k));
  }

  /** getBottomRange descends to the next bucket of the hash, which is one of the children. */
  lemma BottomIsBucket(k: nat, n: int, t: Tuple, x: u64) returns (j: int)
    requires IsBucket(k, n, t) && Pow2(k) <= LevelWidth(k, n) && In(t, x)
    ensures 2 <= Pow2(k) <= Width(t) && HasLevel(k, n + 1)
    ensures BottomTuple(t, Pow2(k), x) == Bucket(k, n + 1, x)
    ensures 0 <= j < Pow2(k) && Child(t, Pow2(k), j) == Bucket(k, n + 1, x)
  {
    hide HasLevel, LevelWidth, Pow2, Bucket, Child, BottomTuple, Width;
    BucketDivisible(k, n, t);
    HoldsIsIn(t, x);
    BottomIsPiece(t, Pow2(k), x);
    j :| 0 <= j < Pow2(k) && BottomTuple(t, Pow2(k), x) == Child(t, Pow2(k), j) && Holds(Child(t, Pow2(k), j), x);
    ChildIsBucket(k, n, t, j);
    HoldsIsIn(Child(t, Pow2(k), j), x);
    BucketUnique(k, n + 1, Child(t, Pow2(k), j), x);
  }
}
