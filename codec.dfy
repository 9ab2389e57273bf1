/**
 * The numeric codec the engine calls into. The real codec is not part of this model; this module is a
 * stand-in that keeps the contract the engine relies upon: serializing a value of width `w` yields
 * exactly `w` bits, writing them changes exactly those bits of the region, and deserializing inverts
 * serializing for every value in range.
 *
 * A region is a sequence of bits. Bit `p` of a region is the bit of weight 2^(p % 8) of byte p / 8,
 * so a byte written with `setUint8` and a `Uint(8)` field agree, and a field of fewer than eight bits
 * written at the start of a fresh byte is that byte's low bits.
 */
module Codec {

  type Byte = b: int | 0 <= b < 256

  /** The codec kinds the engine builds primitive fields from (floats and text are not modelled). */
  datatype Kind = BitsKind | UintKind | IntKind

  function Pow2(n: nat): (r: nat)
    ensures r >= 1
  {
    if n == 0 then 1 else 2 * Pow2(n - 1)
  }

  lemma {:induction false} Pow2Add(a: nat, b: nat)
    ensures Pow2(a + b) == Pow2(a) * Pow2(b)
  {
    if a > 0 {
      Pow2Add(a - 1, b);
    }
  }

  /** The widths the codec accepts for each kind. */
  predicate Permitted(kind: Kind, width: nat)
  {
    match kind
    case BitsKind => 1 <= width <= 7
    case UintKind => width in {8, 16, 32, 64}
    case IntKind => width in {8, 16, 32, 64}
  }

  /** The `w` low bits of `v`, least significant first. */
  function LowBits(v: nat, w: nat): (r: seq<bool>)
    ensures |r| == w
  {
    if w == 0 then [] else [v % 2 == 1] + LowBits(v / 2, w - 1)
  }

  /** The number whose bits, least significant first, are `bs`. */
  function ValueOf(bs: seq<bool>): (r: nat)
    ensures r < Pow2(|bs|)
  {
    if bs == [] then 0 else (if bs[0] then 1 else 0) + 2 * ValueOf(bs[1..])
  }

  lemma DivModUnique(x: int, d: int, q: int, r: int)
    requires d > 0 && 0 <= r < d && x == d * q + r
    ensures x / d == q && x % d == r
  {
    var q', r' := x / d, x % d;
    assert x == d * q' + r';
    if q' < q {
      MulMono(d, q' + 1, q);
      assert false;
    } else if q' > q {
      MulMono(d, q + 1, q');
      assert false;
    }
  }

  lemma MulMono(d: int, a: int, b: int)
    requires d > 0 && a <= b
    ensures d * a <= d * b
  {
    assert d * b - d * a == d * (b - a);
  }

  lemma DivNat(u: nat, p: nat)
    requires p > 0
    ensures u / p >= 0
  {
    var q := u / p;
    assert u == p * q + u % p;
    if q < 0 {
      MulMono(p, q, -1);
      assert false;
    }
  }

  lemma ModDouble(v: nat, p: nat)
    requires p > 0
    ensures v % (2 * p) == v % 2 + 2 * ((v / 2) % p)
  {
    var q, b := v / 2, v % 2;
    var t, u := q / p, q % p;
    assert v == (2 * p) * t + (2 * u + b);
    DivModUnique(v, 2 * p, t, 2 * u + b);
  }

  lemma {:induction false} ValueOfLowBits(v: nat, w: nat)
    ensures ValueOf(LowBits(v, w)) == v % Pow2(w)
  {
    if w > 0 {
      ValueOfLowBits(v / 2, w - 1);
      ModDouble(v, Pow2(w - 1));
    }
  }

  lemma {:induction false} LowBitsValueOf(bs: seq<bool>)
    ensures LowBits(ValueOf(bs), |bs|) == bs
  {
    if bs != [] {
      var v := ValueOf(bs);
      assert v % 2 == (if bs[0] then 1 else 0) && v / 2 == ValueOf(bs[1..]);
      LowBitsValueOf(bs[1..]);
    }
  }

  /** Keeping only the low bits of a value keeps its low bits. */
  lemma {:induction false} LowBitsMod(v: nat, w: nat, k: nat)
    requires w <= k
    ensures LowBits(v % Pow2(k), w) == LowBits(v, w)
  {
    if w > 0 {
      Pow2Add(1, k - 1);
      ModDouble(v, Pow2(k - 1));
      assert (v % Pow2(k)) / 2 == (v / 2) % Pow2(k - 1);
      LowBitsMod(v / 2, w - 1, k - 1);
    }
  }

  /** A prefix of the low bits is the low bits of a smaller width. */
  lemma {:induction false} LowBitsPrefix(v: nat, w: nat, k: nat)
    requires k <= w
    ensures LowBits(v, w)[..k] == LowBits(v, k)
  {
    if k > 0 {
      LowBitsPrefix(v / 2, w - 1, k - 1);
    }
  }

  /** Most significant 8-bit group first; each group least significant bit first. */
  function BigEndian(u: nat, w: nat): (r: seq<bool>)
    ensures |r| == w
    decreases w
  {
    if w <= 8 then LowBits(u, w)
    else
      DivNat(u, Pow2(w - 8));
      LowBits(u / Pow2(w - 8), 8) + BigEndian(u % Pow2(w - 8), w - 8)
  }

  function ReadBigEndian(bs: seq<bool>): nat
    decreases |bs|
  {
    if |bs| <= 8 then ValueOf(bs) else ValueOf(bs[..8]) * Pow2(|bs| - 8) + ReadBigEndian(bs[8..])
  }

  /** Least significant 8-bit group first. */
  function LittleEndian(u: nat, w: nat): (r: seq<bool>)
    ensures |r| == w
    decreases w
  {
    if w <= 8 then LowBits(u, w) else LowBits(u % 256, 8) + LittleEndian(u / 256, w - 8)
  }

  function ReadLittleEndian(bs: seq<bool>): nat
    decreases |bs|
  {
    if |bs| <= 8 then ValueOf(bs) else ValueOf(bs[..8]) + 256 * ReadLittleEndian(bs[8..])
  }

  lemma DivBelow(u: nat, p: nat, k: nat)
    requires p > 0 && u < k * p
    ensures u / p < k
  {
    var q := u / p;
    assert u == p * q + u % p;
    if q >= k {
      MulMono(p, k, q);
      assert false;
    }
  }

  lemma BigEndianUnfold(u: nat, w: nat, hi: nat, lo: nat)
    requires w > 8 && hi == u / Pow2(w - 8) && lo == u % Pow2(w - 8)
    ensures ReadBigEndian(BigEndian(u, w)) == ValueOf(LowBits(hi, 8)) * Pow2(w - 8) + ReadBigEndian(BigEndian(lo, w - 8))
  {
    var bs := BigEndian(u, w);
    assert bs[..8] == LowBits(hi, 8);
    assert bs[8..] == BigEndian(lo, w - 8);
  }

  lemma Recombine(u: nat, p: nat, hi: nat, lo: nat)
    requires p > 0 && hi == u / p && lo == u % p
    ensures hi * p + lo == u
  {
  }

  lemma {:induction false} BigEndianRoundTrip(u: nat, w: nat)
    requires u < Pow2(w)
    ensures ReadBigEndian(BigEndian(u, w)) == u
    decreases w
  {
    if w <= 8 {
      ValueOfLowBits(u, w);
      DivModUnique(u, Pow2(w), 0, u);
    } else {
      var p := Pow2(w - 8);
      Pow2Add(8, w - 8);
      assert Pow2(8) == 256;
      DivNat(u, p);
      var hi, lo := u / p, u % p;
      DivBelow(u, p, 256);
      ValueOfLowBits(hi, 8);
      DivModUnique(hi, 256, 0, hi);
      BigEndianUnfold(u, w, hi, lo);
      BigEndianRoundTrip(lo, w - 8);
      Recombine(u, p, hi, lo);
    }
  }

  lemma {:induction false} LittleEndianRoundTrip(u: nat, w: nat)
    requires u < Pow2(w)
    ensures ReadLittleEndian(LittleEndian(u, w)) == u
    decreases w
  {
    if w <= 8 {
      ValueOfLowBits(u, w);
      DivModUnique(u, Pow2(w), 0, u);
    } else {
      Pow2Add(8, w - 8);
      assert Pow2(8) == 256;
      var hi, lo := u / 256, u % 256;
      DivBelow(u, 256, Pow2(w - 8));
      ValueOfLowBits(lo, 8);
      DivModUnique(lo, 256, 0, lo);
      var bs := LittleEndian(u, w);
      assert bs[..8] == LowBits(lo, 8) && bs[8..] == LittleEndian(hi, w - 8);
      LittleEndianRoundTrip(hi, w - 8);
      assert ReadLittleEndian(bs) == lo + 256 * hi;
    }
  }

  /** The bits the codec writes for `n` at width `w`; values are reduced modulo 2^w (two's complement for Int). */
  function Serialize(kind: Kind, n: int, w: nat, littleEndian: bool): (r: seq<bool>)
    ensures |r| == w
  {
    var u := n % Pow2(w);
    if littleEndian then LittleEndian(u, w) else BigEndian(u, w)
  }

  /** The value the codec reads back from `bs`. */
  function Deserialize(kind: Kind, bs: seq<bool>, littleEndian: bool): int
  {
    var u := if littleEndian then ReadLittleEndian(bs) else ReadBigEndian(bs);
    if kind == IntKind && |bs| >= 1 && u >= Pow2(|bs| - 1) then u - Pow2(|bs|) else u
  }

  /** The values a field of this kind and width represents exactly. */
  predicate InRange(kind: Kind, n: int, w: nat)
  {
    if kind == IntKind then w >= 1 && -(Pow2(w - 1) as int) <= n < Pow2(w - 1) else 0 <= n < Pow2(w)
  }

  /** Deserializing inverts serializing, for every value in range and either byte order. */
  lemma CodecRoundTrip(kind: Kind, n: int, w: nat, littleEndian: bool)
    requires InRange(kind, n, w)
    ensures Deserialize(kind, Serialize(kind, n, w, littleEndian), littleEndian) == n
  {
    var u := n % Pow2(w);
    if littleEndian {
      LittleEndianRoundTrip(u, w);
    } else {
      BigEndianRoundTrip(u, w);
    }
    if kind == IntKind {
      Pow2Add(1, w - 1);
      if n < 0 {
        DivModUnique(n, Pow2(w), -1, n + Pow2(w));
      } else {
        DivModUnique(n, Pow2(w), 0, n);
      }
    } else {
      DivModUnique(n, Pow2(w), 0, n);
    }
  }

  // ---- regions ----

  function Zeros(n: nat): (r: seq<bool>)
    ensures |r| == n && forall i :: 0 <= i < n ==> !r[i]
  {
    seq(n, _ => false)
  }

  /** The region with `bits` written at bit offset `off` and every other bit unchanged. */
  function Overwrite(region: seq<bool>, off: nat, bits: seq<bool>): (r: seq<bool>)
    requires off + |bits| <= |region|
    ensures |r| == |region|
    ensures forall p :: 0 <= p < |r| ==> r[p] == if off <= p < off + |bits| then bits[p - off] else region[p]
  {
    region[..off] + bits + region[off + |bits|..]
  }

  /** Byte `k` of a region, as `getUint8` reads it. */
  function ByteAt(region: seq<bool>, k: nat): (r: Byte)
    requires 8 * k + 8 <= |region|
    ensures r == ValueOf(region[8 * k .. 8 * k + 8])
  {
    assert Pow2(8) == 256;
    ValueOf(region[8 * k .. 8 * k + 8])
  }

  /** The bytes of a region, as `new Uint8Array(buffer)` lists them. */
  function BytesOf(region: seq<bool>): (r: seq<Byte>)
    ensures |r| == |region| / 8
    ensures forall k :: 0 <= k < |r| ==> r[k] == ByteAt(region, k)
  {
    seq(|region| / 8, k requires 0 <= k < |region| / 8 => ByteAt(region, k))
  }

  /** `setUint8`: byte `k` of the region becomes `b` modulo 256. */
  function SetByte(region: seq<bool>, k: nat, b: int): (r: seq<bool>)
    requires 8 * k + 8 <= |region|
    ensures |r| == |region|
  {
    Overwrite(region, 8 * k, LowBits(b % 256, 8))
  }

  /** The number of bytes that hold `bits` bits: `Math.ceil(bits / 8)`. */
  function CeilBytes(bits: nat): nat
  {
    (bits + 7) / 8
  }

  /** A sequence of bytes laid out as a region. */
  function RegionOf(bytes: seq<Byte>): (r: seq<bool>)
    ensures |r| == 8 * |bytes|
  {
    if bytes == [] then [] else LowBits(bytes[0], 8) + RegionOf(bytes[1..])
  }

  /** `after` is `before` with its first `n` bits untouched. */
  predicate Keeps(before: seq<bool>, after: seq<bool>, n: nat)
  {
    |after| == |before| && forall p :: 0 <= p < n && p < |before| ==> after[p] == before[p]
  }

  /** The bits of `bytes ++ [b]`: those of `bytes`, then the eight of `b`. */
  lemma {:induction false} RegionOfSnoc(bytes: seq<Byte>, b: Byte)
    ensures RegionOf(bytes + [b]) == RegionOf(bytes) + LowBits(b, 8)
  {
    if bytes == [] {
      assert bytes + [b] == [b];
    } else {
      assert (bytes + [b])[1..] == bytes[1..] + [b];
      RegionOfSnoc(bytes[1..], b);
    }
  }

  /** Two adjacent writes are one write of both. */
  lemma {:induction false} OverwriteAdjacent(region: seq<bool>, off: nat, x: seq<bool>, y: seq<bool>)
    requires off + |x| + |y| <= |region|
    ensures Overwrite(Overwrite(region, off, x), off + |x|, y) == Overwrite(region, off, x + y)
  {
    var lhs := Overwrite(Overwrite(region, off, x), off + |x|, y);
    var rhs := Overwrite(region, off, x + y);
    assert forall p | 0 <= p < |region| :: lhs[p] == rhs[p];
  }

  /** Byte `i` of `RegionOf(bytes)` holds `bytes[i]`. */
  lemma {:induction false} RegionOfByte(bytes: seq<Byte>, i: nat)
    requires i < |bytes|
    ensures RegionOf(bytes)[8 * i .. 8 * i + 8] == LowBits(bytes[i], 8)
  {
    if i > 0 {
      RegionOfByte(bytes[1..], i - 1);
      assert RegionOf(bytes) == LowBits(bytes[0], 8) + RegionOf(bytes[1..]);
      assert RegionOf(bytes)[8 * i .. 8 * i + 8] == RegionOf(bytes[1..])[8 * (i - 1) .. 8 * (i - 1) + 8];
    }
  }

  /** The byte at `base + i` after writing `bytes` at byte `base` is `bytes[i]`. */
  lemma {:induction false} ByteOfOverwrite(region: seq<bool>, base: nat, bytes: seq<Byte>, i: nat)
    requires 8 * (base + |bytes|) <= |region| && i < |bytes|
    ensures ByteAt(Overwrite(region, 8 * base, RegionOf(bytes)), base + i) == bytes[i]
  {
    RegionOfByte(bytes, i);
    OverwriteSlice(region, 8 * base, RegionOf(bytes), 8 * i, 8);
    ValueOfByte(bytes[i]);
    assert 8 * base + 8 * i == 8 * (base + i);
  }

  /** Reading inside the written bits gives the bits written. */
  lemma OverwriteSlice(region: seq<bool>, off: nat, bits: seq<bool>, q: nat, n: nat)
    requires off + |bits| <= |region| && q + n <= |bits|
    ensures Overwrite(region, off, bits)[off + q .. off + q + n] == bits[q .. q + n]
  {
    var written := Overwrite(region, off, bits);
    forall m | off + q <= m < off + q + n
      ensures written[m] == bits[m - off]
    {
    }
  }

  /** The eight low bits of a byte read back as that byte. */
  lemma ValueOfByte(b: Byte)
    ensures ValueOf(LowBits(b, 8)) == b
  {
    ValueOfLowBits(b, 8);
    assert Pow2(8) == 256;
  }

  /** Reading back the bytes written at byte `base` gives them again. */
  lemma {:induction false} BytesOfOverwrite(region: seq<bool>, base: nat, bytes: seq<Byte>)
    requires base + |bytes| <= |region| / 8
    ensures BytesOf(Overwrite(region, 8 * base, RegionOf(bytes)))[base .. base + |bytes|] == bytes
  {
    var read := BytesOf(Overwrite(region, 8 * base, RegionOf(bytes)));
    forall i | 0 <= i < |bytes|
      ensures read[base + i] == bytes[i]
    {
      ByteOfOverwrite(region, base, bytes, i);
    }
  }

  /** `(v / 2) / p == v / (2 * p)`. */
  lemma {:induction false} DivHalf(v: nat, p: nat)
    requires p > 0
    ensures (v / 2) / p == v / (2 * p)
  {
    var q, r := (v / 2) / p, (v / 2) % p;
    assert v / 2 == p * q + r;
    assert v == 2 * (v / 2) + v % 2;
    assert v == (2 * p) * q + (2 * r + v % 2);
    DivModUnique(v, 2 * p, q, 2 * r + v % 2);
  }

  /** `v` shifted right by `a` bits. */
  function Above(v: nat, a: nat): nat
  {
    if a == 0 then v else Above(v / 2, a - 1)
  }

  /** Shifting right by `a` bits divides by `2 ** a` (`p`). */
  lemma {:induction false} AboveDiv(v: nat, a: nat, p: nat)
    requires p == Pow2(a)
    ensures Above(v, a) == v / p
  {
    if a > 0 {
      AboveDiv(v / 2, a - 1, Pow2(a - 1));
      DivHalf(v, Pow2(a - 1));
    }
  }

  /** The low `a + k` bits are the low `a`, then the low `k` of what is above them. */
  lemma {:induction false} LowBitsConcat(v: nat, a: nat, k: nat)
    ensures LowBits(v, a + k) == LowBits(v, a) + LowBits(Above(v, a), k)
  {
    if a > 0 {
      LowBitsConcat(v / 2, a - 1, k);
      assert LowBits(v, a + k) == [v % 2 == 1] + LowBits(v / 2, a - 1 + k);
    }
  }

  /** The low `8 + k` bits: the low byte, then the low `k` bits of the rest. */
  lemma {:induction false} LowBitsByte(v: nat, k: nat)
    ensures LowBits(v, 8 + k) == LowBits(v % 256, 8) + LowBits(v / 256, k)
  {
    assert Pow2(8) == 256;
    LowBitsConcat(v, 8, k);
    AboveDiv(v, 8, 256);
    LowBitsMod(v, 8, 8);
  }

  /** What was just written is what is read back. */
  lemma {:induction false} ReadBack(region: seq<bool>, off: nat, bits: seq<bool>)
    requires off + |bits| <= |region|
    ensures Overwrite(region, off, bits)[off .. off + |bits|] == bits
  {
    var written := Overwrite(region, off, bits);
    assert forall p | 0 <= p < |bits| :: written[off .. off + |bits|][p] == bits[p];
  }
}
