/**
 * `concat_buffers`: the fragments a standalone aggregate collects are laid end to end in a fresh
 * zeroed region. Each fragment is re-packed byte by byte (`Uint(8)` fields, then a `Bits` field for
 * a partial last byte), which copies exactly its first `size` bits to the running offset.
 */
module Concatenation {
  import opened Wrappers
  import opened Codec
  import opened Document
  import opened Transcode
  import opened Layouts

  /** Where fragment `k` starts: the sizes of the fragments before it. */
  function FragStart(frags: seq<Fragment>, k: nat): nat
    requires k <= |frags|
  {
    if k == 0 then 0 else FragStart(frags, k - 1) + frags[k - 1].size
  }

  /** Every fragment's buffer has a byte for each started byte of its size, as a standalone pack makes it. */
  predicate Framed(frags: seq<Fragment>)
  {
    forall k | 0 <= k < |frags| :: CeilBytes(frags[k].size) <= |frags[k].buffer| / 8
  }

  /** The region holds the first `size` bits of fragment `k` where the fragment starts. */
  predicate FragHolds(view: seq<bool>, frags: seq<Fragment>, k: nat)
    requires k < |frags| && frags[k].size <= |frags[k].buffer|
  {
    Holds(view, FragStart(frags, k), frags[k].buffer[..frags[k].size])
  }

  lemma {:induction false} CeilBound(size: nat, length: nat)
    requires CeilBytes(size) <= length / 8
    ensures size <= 8 * CeilBytes(size) <= length
  {
  }

  // ---- one byte ----

  /** `Uint(8)` fed byte `j` of a region writes back exactly the region's bits of that byte. */
  lemma {:induction false} WholeByte(buf: seq<bool>, j: nat)
    requires 8 * j + 8 <= |buf|
    ensures Serialize(UintKind, ByteAt(buf, j), 8, false) == buf[8 * j .. 8 * j + 8]
  {
    var slice := buf[8 * j .. 8 * j + 8];
    var b := ByteAt(buf, j);
    assert Pow2(8) == 256;
    DivModUnique(b, Pow2(8), 0, b);
    LowBitsValueOf(slice);
  }

  /** `Bits(r)` fed byte `j` of a region writes back exactly the first `r` bits of that byte. */
  lemma {:induction false} PartialByte(buf: seq<bool>, j: nat, r: nat)
    requires 8 * j + 8 <= |buf| && 0 < r < 8
    ensures Serialize(BitsKind, ByteAt(buf, j), r, false) == buf[8 * j .. 8 * j + r]
  {
    var slice := buf[8 * j .. 8 * j + 8];
    var b := ByteAt(buf, j);
    LowBitsMod(b, r, r);
    LowBitsPrefix(b, 8, r);
    LowBitsValueOf(slice);
  }

  // ---- one fragment ----

  /**
   * The byte array for one fragment, from byte `j` on, the bytes before it placed: it succeeds exactly
   * when the fragment has a byte for every started byte of its size and the region has room for the
   * size at `off`, and then the fragment's bits from `8 * j` to `size` sit at `off + 8 * j`, nothing
   * else changed.
   */
  lemma {:induction false} PlaceFrom(out: seq<bool>, off: nat, buf: seq<bool>, j: nat, size: nat)
    requires j <= size / 8 && j <= |buf| / 8 && off + 8 * j <= |out|
    ensures var r := PlaceBytes(out, off, BytesOf(buf), j, size);
      && (r.Ok? <==> CeilBytes(size) <= |buf| / 8 && off + size <= |out|)
      && (r.Err? ==> r.error == InsufficientData || r.error == OutOfRange)
      && (r.Ok? ==> size <= |buf| && r.value == Overwrite(out, off + 8 * j, buf[8 * j .. size]))
    decreases size / 8 - j
  {
    if j < size / 8 {
      if j < |BytesOf(buf)| && off + 8 * j + 8 <= |out| {
        var next := PlaceStep(out, off, buf, j, size);
        PlaceFrom(next, off, buf, j + 1, size);
        PlaceAfter(PlaceBytes(out, off, BytesOf(buf), j, size), PlaceBytes(next, off, BytesOf(buf), j + 1, size), out, next, off, buf, j, size);
      }
    } else if size % 8 != 0 {
      if j < |BytesOf(buf)| && off + 8 * j + size % 8 <= |out| {
        PartialByte(buf, j, size % 8);
      }
    } else {
      assert buf[8 * j .. size] == [];
      assert Overwrite(out, off + 8 * j, []) == out;
    }
  }

  /** Whole byte `j` of the fragment is placed, and the rest of the fragment follows. */
  lemma {:induction false} PlaceStep(out: seq<bool>, off: nat, buf: seq<bool>, j: nat, size: nat) returns (next: seq<bool>)
    requires j < size / 8 && j < |buf| / 8 && off + 8 * j + 8 <= |out|
    ensures next == Overwrite(out, off + 8 * j, buf[8 * j .. 8 * j + 8])
    ensures PlaceBytes(out, off, BytesOf(buf), j, size) == PlaceBytes(next, off, BytesOf(buf), j + 1, size)
  {
    WholeByte(buf, j);
    next := Overwrite(out, off + 8 * j, buf[8 * j .. 8 * j + 8]);
  }

  /** Byte `j` written, then the bits after it: the bits from byte `j` on written at once. */
  lemma {:induction false} PlaceAfter(here: Result<seq<bool>>, after: Result<seq<bool>>, out: seq<bool>, next: seq<bool>,
                                      off: nat, buf: seq<bool>, j: nat, size: nat)
    requires 8 * j + 8 <= size && j < |buf| / 8 && off + 8 * j + 8 <= |out|
    requires next == Overwrite(out, off + 8 * j, buf[8 * j .. 8 * j + 8]) && here == after
    requires after.Ok? <==> CeilBytes(size) <= |buf| / 8 && off + size <= |next|
    requires after.Err? ==> after.error == InsufficientData || after.error == OutOfRange
    requires after.Ok? ==> size <= |buf| && after.value == Overwrite(next, off + 8 * (j + 1), buf[8 * (j + 1) .. size])
    ensures here.Ok? <==> CeilBytes(size) <= |buf| / 8 && off + size <= |out|
    ensures here.Err? ==> here.error == InsufficientData || here.error == OutOfRange
    ensures here.Ok? ==> size <= |buf| && here.value == Overwrite(out, off + 8 * j, buf[8 * j .. size])
  {
    if after.Ok? {
      OverwriteAdjacent(out, off + 8 * j, buf[8 * j .. 8 * j + 8], buf[8 * j + 8 .. size]);
      assert buf[8 * j .. 8 * j + 8] + buf[8 * j + 8 .. size] == buf[8 * j .. size];
    }
  }

  /** One fragment with room for it: its first `size` bits are copied to `off`. */
  lemma {:induction false} PlaceFragment(out: seq<bool>, off: nat, buf: seq<bool>, size: nat)
    requires CeilBytes(size) <= |buf| / 8 && off + size <= |out|
    ensures size <= |buf| && PlaceBytes(out, off, BytesOf(buf), 0, size) == Ok(Overwrite(out, off, buf[..size]))
  {
    PlaceFrom(out, off, buf, 0, size);
    assert buf[0 .. size] == buf[..size];
  }

  // ---- all fragments ----

  /** What placing fragments `k` on into `out` gives: each where it starts, nothing else changed. */
  predicate Laid(r: Result<seq<bool>>, frags: seq<Fragment>, k: nat, out: seq<bool>)
    requires k <= |frags| && Framed(frags)
  {
    && r.Ok?
    && Outside(out, r.value, FragStart(frags, k), FragStart(frags, |frags|))
    && forall i | k <= i < |frags| :: CeilBound(frags[i].size, |frags[i].buffer|); FragHolds(r.value, frags, i)
  }

  lemma {:induction false} FragWithin(frags: seq<Fragment>, k: nat)
    requires k < |frags|
    ensures FragStart(frags, k) + frags[k].size <= FragStart(frags, |frags|)
    decreases |frags| - k
  {
    if k + 1 < |frags| {
      FragWithin(frags, k + 1);
    }
  }

  /** The fragment loop from fragment `k` on, with the region holding all of them. */
  lemma {:induction false} ConcatFromLays(frags: seq<Fragment>, k: nat, out: seq<bool>, off: nat)
    requires k <= |frags| && Framed(frags) && off == FragStart(frags, k) && FragStart(frags, |frags|) <= |out|
    ensures Laid(ConcatFrom(frags, k, out, off), frags, k, out)
    decreases |frags| - k
  {
    if k < |frags| {
      FragWithin(frags, k);
      PlaceFragment(out, off, frags[k].buffer, frags[k].size);
      ConcatFromLays(frags, k + 1, Overwrite(out, off, frags[k].buffer[..frags[k].size]), off + frags[k].size);
      ConcatUnfold(frags, k, out, off, Overwrite(out, off, frags[k].buffer[..frags[k].size]));
      ConcatStep(frags, k, out, off, Overwrite(out, off, frags[k].buffer[..frags[k].size]), ConcatFrom(frags, k, out, off),
                 ConcatFrom(frags, k + 1, Overwrite(out, off, frags[k].buffer[..frags[k].size]), off + frags[k].size));
    }
  }

  /** Fragment `k` placed, the loop goes on with the fragments after it. */
  lemma {:induction false} ConcatUnfold(frags: seq<Fragment>, k: nat, out: seq<bool>, off: nat, next: seq<bool>)
    requires k < |frags| && PlaceBytes(out, off, BytesOf(frags[k].buffer), 0, frags[k].size) == Ok(next)
    ensures ConcatFrom(frags, k, out, off) == ConcatFrom(frags, k + 1, next, off + frags[k].size)
  {
  }

  /** Fragment `k` placed, then the fragments after it. */
  lemma {:induction false} ConcatStep(frags: seq<Fragment>, k: nat, out: seq<bool>, off: nat, next: seq<bool>,
                                      here: Result<seq<bool>>, after: Result<seq<bool>>)
    requires k < |frags| && Framed(frags) && off == FragStart(frags, k) && FragStart(frags, |frags|) <= |out|
    requires FragStart(frags, k) + frags[k].size <= FragStart(frags, |frags|)
    requires frags[k].size <= |frags[k].buffer| && next == Overwrite(out, off, frags[k].buffer[..frags[k].size])
    requires here == after && Laid(after, frags, k + 1, next)
    ensures Laid(here, frags, k, out)
  {
    var bits := frags[k].buffer[..frags[k].size];
    WriteThenKeep(out, off, bits, after.value, FragStart(frags, |frags|));
    assert FragHolds(after.value, frags, k);
  }

  /**
   * `concat_buffers` over well-framed fragments whose sizes add up to at most the total: it
   * succeeds, every fragment's first `size` bits sit at the sum of the sizes before it, and every bit
   * after the last fragment is zero.
   */
  lemma {:induction false} ConcatLays(frags: seq<Fragment>, total: nat)
    requires Framed(frags) && FragStart(frags, |frags|) <= total
    ensures var r := Concat(frags, total);
      && r.Ok? && |r.value| == 8 * CeilBytes(total)
      && (forall i | 0 <= i < |frags| :: CeilBound(frags[i].size, |frags[i].buffer|); FragHolds(r.value, frags, i))
      && forall p | FragStart(frags, |frags|) <= p < |r.value| :: !r.value[p]
  {
    var zeros := Zeros(8 * CeilBytes(total));
    ConcatFromLays(frags, 0, zeros, 0);
  }

  // ---- fragment mode ----

  /** The fragments of a standalone pack loop: well framed, their sizes adding up to the loop's offset. */
  predicate Collected(acc: PackAcc)
  {
    acc.view.None? && Framed(acc.frags) && FragStart(acc.frags, |acc.frags|) == acc.offset
  }

  /** Storing a standalone child's result keeps the fragments collected: its size is added to the offset. */
  lemma {:induction false} AbsorbCollects(acc: PackAcc, p: Packed, feed: Feed)
    requires Collected(acc) && |p.buffer| == 8 * CeilBytes(p.size)
    ensures Collected(Absorb(acc, p, feed))
  {
    var frags := acc.frags + [Fragment(p.buffer, p.size)];
    assert frags[..|acc.frags|] == acc.frags;
    FragStartPrefix(frags, |acc.frags|, acc.frags);
  }

  /** Fragments after the first `k` do not move where the first `k` start. */
  lemma {:induction false} FragStartPrefix(frags: seq<Fragment>, k: nat, prefix: seq<Fragment>)
    requires k <= |prefix| <= |frags| && prefix == frags[..|prefix|]
    ensures FragStart(frags, k) == FragStart(prefix, k)
  {
    if k > 0 {
      FragStartPrefix(frags, k - 1, prefix);
    }
  }

  /**
   * The end of a standalone aggregate's pack: it succeeds with a region of `ceil(offset / 8)` bytes
   * holding every collected fragment at its running offset, zero after the last.
   */
  lemma {:induction false} FinishCollected(acc: PackAcc)
    requires Collected(acc)
    ensures var r := Finish(acc);
      && r.Ok? && r.value.1 == acc.offset && |r.value.0| == 8 * CeilBytes(acc.offset)
      && (forall i | 0 <= i < |acc.frags| :: CeilBound(acc.frags[i].size, |acc.frags[i].buffer|); FragHolds(r.value.0, acc.frags, i))
      && forall p | acc.offset <= p < |r.value.0| :: !r.value.0[p]
  {
    ConcatLays(acc.frags, acc.offset);
  }
}
