/** `commonspace/pubsub/sign.go`: the byte string a publish signature covers. */
module SignData {

  type Byte = x: int | 0 <= x < 256

  type Bytes = seq<Byte>

  /** The signed fields, in their wire form; `timestamp` is an int64. */
  datatype Publish = Publish(spaceId: Bytes, topic: Bytes, msgId: Bytes, keyId: Bytes, timestamp: int, payload: Bytes, relayed: bool)

  predicate IsInt64(t: int) {
    -0x8000_0000_0000_0000 <= t < 0x8000_0000_0000_0000
  }

  /** The field lengths survive the conversion to uint32. */
  predicate ShortFields(p: Publish) {
    |p.spaceId| < 0x1_0000_0000 && |p.topic| < 0x1_0000_0000 && |p.msgId| < 0x1_0000_0000 && |p.keyId| < 0x1_0000_0000
  }

  /** "anysync:pubsub:v1". */
  const Prefix: Bytes := [97, 110, 121, 115, 121, 110, 99, 58, 112, 117, 98, 115, 117, 98, 58, 118, 49]

  /** The n low bytes of v, least significant first. */
  function LittleEndian(v: nat, n: nat): (b: Bytes)
    ensures |b| == n
    decreases n
  {
    if n == 0 then [] else [v % 256] + LittleEndian(v / 256, n - 1)
  }

  function FromLittleEndian(b: Bytes): nat {
    if b == [] then 0 else b[0] + 256 * FromLittleEndian(b[1..])
  }

  function Pow256(n: nat): nat {
    if n == 0 then 1 else 256 * Pow256(n - 1)
  }

  /** uint32(len(f)) followed by f. */
  function Field(f: Bytes): Bytes {
    LittleEndian(|f|, 4) + f
  }

  /** uint64(t). */
  function AsUint64(t: int): (u: nat)
    requires IsInt64(t)
    ensures u < 0x1_0000_0000_0000_0000 && (u - t) % 0x1_0000_0000_0000_0000 == 0
  {
    if t < 0 then t + 0x1_0000_0000_0000_0000 else t
  }

  function SignedFields(p: Publish): seq<Bytes> {
    [p.spaceId, p.topic, p.msgId, p.keyId]
  }

  function FieldsFrom(fs: seq<Bytes>): Bytes {
    if fs == [] then [] else Field(fs[0]) + FieldsFrom(fs[1..])
  }

  function Signed(p: Publish): Bytes
    requires IsInt64(p.timestamp)
  {
    Prefix + FieldsFrom(SignedFields(p)) + LittleEndian(AsUint64(p.timestamp), 8) + p.payload
  }

  /** publishSignData: the buffer never outgrows the precomputed size. */
  method PublishSignData(p: Publish) returns (buf: Bytes)
    requires IsInt64(p.timestamp)
    ensures buf == Signed(p)
    ensures |buf| == |Prefix| + 4 * 4 + 8 + |p.spaceId| + |p.topic| + |p.msgId| + |p.keyId| + |p.payload|
  {
    hide Field, LittleEndian, AsUint64;
    var fields := SignedFields(p);
    buf := Prefix;
    for i := 0 to |fields|
      invariant Prefix + FieldsFrom(fields) == buf + FieldsFrom(fields[i..])
    {
      assert fields[i..][1..] == fields[i + 1..];
      FieldIs(fields[i]);
      buf := buf + LittleEndian(|fields[i]|, 4);
      buf := buf + fields[i];
    }
    assert fields[|fields|..] == [];
    FieldsLength(fields);
    buf := buf + LittleEndian(AsUint64(p.timestamp), 8);
    buf := buf + p.payload;
  }

  lemma FieldIs(f: Bytes)
    ensures forall b: Bytes, r: Bytes :: b + (Field(f) + r) == b + LittleEndian(|f|, 4) + f + r
  {
  }

  lemma FieldsLength(fs: seq<Bytes>)
    requires |fs| == 4
    ensures |FieldsFrom(fs)| == 16 + |fs[0]| + |fs[1]| + |fs[2]| + |fs[3]|
  {
    assert fs[1..][0] == fs[1] && fs[1..][1..] == fs[2..];
    assert fs[2..][0] == fs[2] && fs[2..][1..] == fs[3..];
    assert fs[3..][0] == fs[3] && fs[3..][1..] == [];
    assert FieldsFrom(fs) == Field(fs[0]) + FieldsFrom(fs[1..]);
    assert FieldsFrom(fs[1..]) == Field(fs[1]) + FieldsFrom(fs[2..]);
    assert FieldsFrom(fs[2..]) == Field(fs[2]) + FieldsFrom(fs[3..]);
    assert FieldsFrom(fs[3..]) == Field(fs[3]) + FieldsFrom([]);
  }

  // ---- the encoding is unambiguous -----------------------------------------------------------------------

  lemma {:induction false} LittleEndianInverse(v: nat, n: nat)
    requires v < Pow256(n)
    ensures FromLittleEndian(LittleEndian(v, n)) == v
    decreases n
  {
    if n > 0 {
      assert v / 256 < Pow256(n - 1);
      LittleEndianInverse(v / 256, n - 1);
      assert LittleEndian(v, n)[1..] == LittleEndian(v / 256, n - 1);
    }
  }

  lemma LengthFits(v: nat)
    requires v < 0x1_0000_0000
    ensures v < Pow256(4)
  {
    assert Pow256(4) == 256 * 256 * 256 * 256;
  }

  lemma Uint64Fits(v: nat)
    requires v < 0x1_0000_0000_0000_0000
    ensures v < Pow256(8)
  {
    assert Pow256(4) == 0x1_0000_0000;
    assert Pow256(8) == 256 * 256 * 256 * 256 * Pow256(4);
  }

  /** A field can be read back from the front of any byte string, whatever follows it. */
  lemma FieldSplits(f: Bytes, g: Bytes, r: Bytes, s: Bytes)
    requires |f| < 0x1_0000_0000 && |g| < 0x1_0000_0000 && Field(f) + r == Field(g) + s
    ensures f == g && r == s
  {
    hide LittleEndian, Pow256, FromLittleEndian;
    var a, b := Field(f) + r, Field(g) + s;
    assert a[..4] == LittleEndian(|f|, 4) && b[..4] == LittleEndian(|g|, 4);
    LengthFits(|f|);
    LengthFits(|g|);
    LittleEndianInverse(|f|, 4);
    LittleEndianInverse(|g|, 4);
    assert a[4..4 + |f|] == f && b[4..4 + |g|] == g;
    assert a[4 + |f|..] == r && b[4 + |g|..] == s;
  }

  lemma FieldsStep(fs: seq<Bytes>, r: Bytes)
    requires fs != []
    ensures FieldsFrom(fs) + r == Field(fs[0]) + (FieldsFrom(fs[1..]) + r)
  {
  }

  lemma {:induction false} FieldsSplit(fs: seq<Bytes>, gs: seq<Bytes>, r: Bytes, s: Bytes)
    requires |fs| == |gs| && forall i | 0 <= i < |fs| :: |fs[i]| < 0x1_0000_0000 && |gs[i]| < 0x1_0000_0000
    requires FieldsFrom(fs) + r == FieldsFrom(gs) + s
    ensures fs == gs && r == s
    decreases |fs|
  {
    if fs == [] {
      assert FieldsFrom(fs) + r == r && FieldsFrom(gs) + s == s;
    } else {
      hide Field, FieldsFrom;
      FieldsStep(fs, r);
      FieldsStep(gs, s);
      FieldSplits(fs[0], gs[0], FieldsFrom(fs[1..]) + r, FieldsFrom(gs[1..]) + s);
      FieldsSplit(fs[1..], gs[1..], r, s);
      assert fs == [fs[0]] + fs[1..] && gs == [gs[0]] + gs[1..];
    }
  }

  /** Two messages with the same signed bytes agree on every signed field. */
  lemma SignedInjective(p: Publish, q: Publish)
    requires IsInt64(p.timestamp) && IsInt64(q.timestamp) && ShortFields(p) && ShortFields(q)
    requires Signed(p) == Signed(q)
    ensures p.(relayed := q.relayed) == q
  {
    hide LittleEndian, FieldsFrom, Pow256;
    var r := LittleEndian(AsUint64(p.timestamp), 8) + p.payload;
    var s := LittleEndian(AsUint64(q.timestamp), 8) + q.payload;
    assert Signed(p) == Prefix + (FieldsFrom(SignedFields(p)) + r);
    assert Signed(q) == Prefix + (FieldsFrom(SignedFields(q)) + s);
    assert FieldsFrom(SignedFields(p)) + r == Signed(p)[|Prefix|..];
    assert FieldsFrom(SignedFields(q)) + s == Signed(q)[|Prefix|..];
    FieldsSplit(SignedFields(p), SignedFields(q), r, s);
    assert SignedFields(p)[0] == p.spaceId && SignedFields(p)[1] == p.topic && SignedFields(p)[2] == p.msgId && SignedFields(p)[3] == p.keyId;
    assert SignedFields(q)[0] == q.spaceId && SignedFields(q)[1] == q.topic && SignedFields(q)[2] == q.msgId && SignedFields(q)[3] == q.keyId;
    assert r[..8] == LittleEndian(AsUint64(p.timestamp), 8) && s[..8] == LittleEndian(AsUint64(q.timestamp), 8);
    assert r[8..] == p.payload && s[8..] == q.payload;
    Uint64Fits(AsUint64(p.timestamp));
    Uint64Fits(AsUint64(q.timestamp));
    LittleEndianInverse(AsUint64(p.timestamp), 8);
    LittleEndianInverse(AsUint64(q.timestamp), 8);
  }

  /** Nodes set the relayed flag in transit; the signature does not cover it. */
  lemma RelayedNotSigned(p: Publish, flag: bool)
    requires IsInt64(p.timestamp)
    ensures Signed(p.(relayed := flag)) == Signed(p)
  {
    assert SignedFields(p.(relayed := flag)) == SignedFields(p);
  }

  /** n zero bytes. */
  function Zeros(n: nat): Bytes {
    seq(n, _ => 0)
  }

  lemma {:induction false} ZeroWord(n: nat)
    ensures LittleEndian(0, n) == Zeros(n)
    decreases n
  {
    if n > 0 {
      ZeroWord(n - 1);
    }
  }

  /** At four gibibytes a length wraps to zero and field boundaries can shift. */
  lemma LongFieldsCollide()
    ensures var long := Zeros(0x1_0000_0000);
            var p, q := Publish(long, [], [], [], 0, [], false), Publish([], [], [], [], 0, long, false);
            p != q && Signed(p) == Signed(q)
  {
    hide LittleEndian, Pow256;
    var long := Zeros(0x1_0000_0000);
    var p, q := Publish(long, [], [], [], 0, [], false), Publish([], [], [], [], 0, long, false);
    assert |p.spaceId| != |q.spaceId|;
    ZeroLengths();
    assert Field(long) == Zeros(4) + long && Field([]) == Zeros(4);
    FourFields(p);
    FourFields(q);
    var z := Prefix + Zeros(0x1_0000_0000 + 24);
    assert Zeros(4) + long + Zeros(4) + Zeros(4) + Zeros(4) + Zeros(8) == Zeros(0x1_0000_0000 + 24);
    assert Zeros(4) + Zeros(4) + Zeros(4) + Zeros(4) + Zeros(8) + long == Zeros(0x1_0000_0000 + 24);
    assert Signed(p) == z;
    assert Signed(q) == z;
  }

  lemma ZeroLengths()
    ensures LittleEndian(0x1_0000_0000, 4) == Zeros(4) && LittleEndian(0, 4) == Zeros(4) && LittleEndian(0, 8) == Zeros(8)
  {
    ZeroWord(4);
    ZeroWord(8);
    assert LittleEndian(0x1_0000_0000, 4) == [0] + LittleEndian(0x100_0000, 3);
    assert LittleEndian(0x100_0000, 3) == [0] + LittleEndian(0x1_0000, 2);
    assert LittleEndian(0x1_0000, 2) == [0] + LittleEndian(0x100, 1);
    assert LittleEndian(0x100, 1) == [0] + LittleEndian(1, 0);
  }

  lemma FourFields(p: Publish)
    ensures FieldsFrom(SignedFields(p)) == Field(p.spaceId) + Field(p.topic) + Field(p.msgId) + Field(p.keyId)
  {
    hide Field;
    var fs := SignedFields(p);
    var f1: seq<Bytes> := [p.topic, p.msgId, p.keyId];
    var f2: seq<Bytes> := [p.msgId, p.keyId];
    var f3: seq<Bytes> := [p.keyId];
    assert fs[1..] == f1 && f1[1..] == f2 && f2[1..] == f3 && f3[1..] == [];
    assert FieldsFrom(fs) == Field(p.spaceId) + FieldsFrom(f1);
    assert FieldsFrom(f1) == Field(p.topic) + FieldsFrom(f2);
    assert FieldsFrom(f2) == Field(p.msgId) + FieldsFrom(f3);
    assert FieldsFrom(f3) == Field(p.keyId) + FieldsFrom([]);
  }

  // ---- the bytes by position -----------------------------------------------------------------------------------

  const SignPrefix := "anysync:pubsub:v1"

  lemma PrefixIs()
    ensures |Prefix| == |SignPrefix| == 17 && forall i | 0 <= i < 17 :: Prefix[i] == SignPrefix[i] as int
  {
  }

  /** The part of a byte string of length n at offset o. */
  function Part(b: Bytes, o: nat, n: nat): Bytes
    requires o + n <= |b|
  {
    b[o..o + n]
  }

  /** A length-prefixed field stands at offset o. */
  ghost predicate FieldAt(b: Bytes, o: nat, f: Bytes) {
    o + 4 + |f| <= |b| && Part(b, o, 4) == LittleEndian(|f|, 4) && Part(b, o + 4, |f|) == f
  }

  lemma FieldStands(a: Bytes, f: Bytes, r: Bytes)
    ensures FieldAt(a + (Field(f) + r), |a|, f)
  {
    hide LittleEndian;
  }

  lemma SignedIs(p: Publish)
    requires IsInt64(p.timestamp)
    ensures Signed(p) == Prefix + Field(p.spaceId) + Field(p.topic) + Field(p.msgId) + Field(p.keyId) +
                         (LittleEndian(AsUint64(p.timestamp), 8) + p.payload)
  {
    hide LittleEndian, FieldsFrom, AsUint64, Field;
    FourFields(p);
  }

  lemma Regroup(a: Bytes, b: Bytes, c: Bytes, d: Bytes, e: Bytes, f: Bytes)
    ensures var all := a + b + c + d + e + f;
            && all == a + (b + (c + d + e + f)) && all == (a + b) + (c + (d + e + f))
            && all == (a + b + c) + (d + (e + f)) && all == (a + b + c + d) + (e + f)
  {
  }

  /** The prefix, the four fields, the timestamp and the payload, each at its offset. */
  lemma SignedLayout(p: Publish)
    requires IsInt64(p.timestamp)
    ensures var b := Signed(p);
            var o1 := 17 + 4 + |p.spaceId|;
            var o2 := o1 + 4 + |p.topic|;
            var o3 := o2 + 4 + |p.msgId|;
            var o4 := o3 + 4 + |p.keyId|;
            && |b| == o4 + 8 + |p.payload|
            && Part(b, 0, 17) == Prefix
            && FieldAt(b, 17, p.spaceId) && FieldAt(b, o1, p.topic) && FieldAt(b, o2, p.msgId) && FieldAt(b, o3, p.keyId)
            && Part(b, o4, 8) == LittleEndian(AsUint64(p.timestamp), 8) && Part(b, o4 + 8, |p.payload|) == p.payload
  {
    hide LittleEndian, FieldsFrom, FieldAt, AsUint64, Signed;
    var f1, f2, f3, f4 := Field(p.spaceId), Field(p.topic), Field(p.msgId), Field(p.keyId);
    var rest := LittleEndian(AsUint64(p.timestamp), 8) + p.payload;
    var b := Signed(p);
    SignedIs(p);
    Regroup(Prefix, f1, f2, f3, f4, rest);
    FieldStands(Prefix, p.spaceId, f2 + f3 + f4 + rest);
    FieldStands(Prefix + f1, p.topic, f3 + f4 + rest);
    FieldStands(Prefix + f1 + f2, p.msgId, f4 + rest);
    FieldStands(Prefix + f1 + f2 + f3, p.keyId, rest);
    var head := Prefix + f1 + f2 + f3 + f4;
    assert Part(b, 0, 17) == Prefix;
    assert Part(b, |head|, 8) == rest[..8] && Part(b, |head| + 8, |p.payload|) == rest[8..];
  }

  /** Every 64-bit word is the image of one timestamp. */
  lemma EveryWordIsATimestamp(u: nat) returns (t: int)
    requires u < 0x1_0000_0000_0000_0000
    ensures IsInt64(t) && AsUint64(t) == u
  {
    t := if u < 0x8000_0000_0000_0000 then u else u - 0x1_0000_0000_0000_0000;
  }
}
