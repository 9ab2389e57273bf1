/** What the leaves promise: the primitive field, the byte span and padding. */
module LeafProperties {
  import opened Wrappers
  import opened Codec
  import opened Document
  import opened Structs
  import opened Transcode

  // ---- primitive fields ----

  /**
   * A hook-free primitive field packs a value of its range and parses it back, at any offset of a
   * shared region or standalone: the size is the width, the source is read once, and parsing with
   * no callback leaves the context alone.
   */
  lemma {:induction false} PrimitiveRoundTrip(s: Struct, n: int, view: Option<seq<bool>>, offset: nat, littleEndian: Option<bool>, context: Ctx)
    requires s.Primitive? && s.tc.encode.None? && s.tc.decode.None? && InRange(s.kind, n, s.width)
    requires view.None? ==> offset == 0
    requires view.Some? ==> offset + s.width <= |view.value|
    ensures var p := PackSpec(s, Given(Number(n)), PackOpts(view, offset, littleEndian, context));
      && p.Ok? && p.value.size == s.width && p.value.feed == Given(Number(n))
      && ParseSpec(s, p.value.buffer, ParseOpts(offset, littleEndian, context), Drop) == Ok(Parsed(Number(n), s.width, context))
  {
    var le := IsLittle(Endian(littleEndian, s.tc.littleEndian));
    var bits := Serialize(s.kind, n, s.width, le);
    var region := if view.Some? then view.value else Zeros(8 * CeilBytes(s.width));
    ReadBack(region, offset, bits);
    CodecRoundTrip(s.kind, n, s.width, le);
  }

  /** A primitive field's parse reports its width and delivers the decoded value once, under the key. */
  lemma PrimitiveParseDelivers(s: Struct, view: seq<bool>, o: ParseOpts, key: string)
    requires s.Primitive? && |o.context| > 0 && o.context[0].Record?
    ensures var r := ParseSpec(s, view, o, SetKey(key));
      r.Ok? ==> r.value.size == s.width && r.value.context == [Record(o.context[0].fields[key := r.value.data])] + o.context[1..]
  {
  }

  // ---- Byte_Buffer ----

  /**
   * A hook-free byte span whose length resolves to the buffer's packs it (standalone, or at the byte
   * holding `offset` in a region with room) and parses exactly those bytes back.
   */
  lemma {:induction false} ByteSpanRoundTrip(s: Struct, bytes: seq<Byte>, view: Option<seq<bool>>, offset: nat, littleEndian: Option<bool>, context: Ctx)
    requires s.ByteSpan? && s.tc.encode.None? && s.tc.decode.None?
    requires Resolve(s.length, context, InBytes) == Ok(8 * |bytes|)
    requires view.None? ==> offset == 0
    requires view.Some? ==> offset / 8 + |bytes| <= |view.value| / 8
    ensures var p := PackSpec(s, Given(Buffer(bytes)), PackOpts(view, offset, littleEndian, context));
      && p.Ok? && p.value.size == 8 * |bytes| && p.value.feed == Given(Buffer(bytes))
      && ParseSpec(s, p.value.buffer, ParseOpts(offset, littleEndian, context), Drop) == Ok(Parsed(Buffer(bytes), 8 * |bytes|, context))
  {
    ByteSpanPack(s, bytes, view, offset, littleEndian, context);
    ByteSpanParse(s, bytes, PackSpec(s, Given(Buffer(bytes)), PackOpts(view, offset, littleEndian, context)).value.buffer,
                  offset, littleEndian, context);
  }

  /** A byte span's pack succeeded with the buffer's size, left the source alone and holds the bytes at byte `base`. */
  predicate SpanPacked(p: Result<Packed>, bytes: seq<Byte>, base: nat)
  {
    p.Ok? && p.value.size == 8 * |bytes| && p.value.feed == Given(Buffer(bytes)) && SliceBytes(p.value.buffer, base, base + |bytes|) == bytes
  }

  /** A hook-free byte span packs a buffer of its resolved length so that its bytes sit at the byte holding `offset`. */
  lemma {:induction false} ByteSpanPack(s: Struct, bytes: seq<Byte>, view: Option<seq<bool>>, offset: nat, littleEndian: Option<bool>, context: Ctx)
    requires s.ByteSpan? && s.tc.encode.None?
    requires Resolve(s.length, context, InBytes) == Ok(8 * |bytes|)
    requires view.None? ==> offset == 0
    requires view.Some? ==> offset / 8 + |bytes| <= |view.value| / 8
    ensures SpanPacked(PackSpec(s, Given(Buffer(bytes)), PackOpts(view, offset, littleEndian, context)), bytes, offset / 8)
  {
    ByteSpanPackBody(s, bytes, view, offset, littleEndian, context);
    if view.None? {
      assert Overwrite(RegionOf(bytes), 0, RegionOf(bytes)) == RegionOf(bytes);
      SpanSlice(RegionOf(bytes), 0, bytes);
    } else if |bytes| > 0 {
      SpanSlice(view.value, offset / 8, bytes);
    }
  }

  /** The region a byte span's pack gives: the bytes alone, or copied into the shared region at the byte holding `offset`. */
  function SpanRegion(view: Option<seq<bool>>, offset: nat, bytes: seq<Byte>): seq<bool>
    requires view.Some? ==> offset / 8 + |bytes| <= |view.value| / 8
  {
    if view.None? then RegionOf(bytes)
    else if |bytes| == 0 then view.value
    else Overwrite(view.value, 8 * (offset / 8), RegionOf(bytes))
  }

  /** What a hook-free byte span's pack gives for a buffer of its resolved length. */
  lemma {:induction false} ByteSpanPackBody(s: Struct, bytes: seq<Byte>, view: Option<seq<bool>>, offset: nat, littleEndian: Option<bool>, context: Ctx)
    requires s.ByteSpan? && s.tc.encode.None?
    requires Resolve(s.length, context, InBytes) == Ok(8 * |bytes|)
    requires view.Some? ==> offset / 8 + |bytes| <= |view.value| / 8
    ensures PackSpec(s, Given(Buffer(bytes)), PackOpts(view, offset, littleEndian, context))
      == Ok(Packed(SpanRegion(view, offset, bytes), 8 * |bytes|, Given(Buffer(bytes))))
  {
    assert PackSpec(s, Given(Buffer(bytes)), PackOpts(view, offset, littleEndian, context))
      == PackByteSpan(s, Given(Buffer(bytes)), PackOpts(view, offset, littleEndian, context));
  }

  /** Bytes copied whole into a region are what slicing their span gives back. */
  lemma {:induction false} SpanSlice(region: seq<bool>, base: nat, bytes: seq<Byte>)
    requires base + |bytes| <= |region| / 8
    ensures SliceBytes(Overwrite(region, 8 * base, RegionOf(bytes)), base, base + |bytes|) == bytes
  {
    if |bytes| > 0 {
      BytesOfOverwrite(region, base, bytes);
    }
  }

  /** A hook-free byte span parses the bytes from the one holding `offset` on, as many as its resolved length says. */
  lemma {:induction false} ByteSpanParse(s: Struct, bytes: seq<Byte>, view: seq<bool>, offset: nat, littleEndian: Option<bool>, context: Ctx)
    requires s.ByteSpan? && s.tc.decode.None?
    requires Resolve(s.length, context, InBytes) == Ok(8 * |bytes|)
    requires SliceBytes(view, offset / 8, offset / 8 + |bytes|) == bytes
    ensures ParseSpec(s, view, ParseOpts(offset, littleEndian, context), Drop) == Ok(Parsed(Buffer(bytes), 8 * |bytes|, context))
  {
    assert (offset + 8 * |bytes|) / 8 == offset / 8 + |bytes|;
  }

  /** A byte span rejects exactly the values that are not buffers of the resolved length. */
  lemma ByteSpanLengthCheck(s: Struct, v: Doc, o: PackOpts, size: nat)
    requires s.ByteSpan? && s.tc.encode.None? && Resolve(s.length, o.context, InBytes) == Ok(size)
    ensures PackSpec(s, Given(v), o) == Err(LengthMismatch(size)) <==> !v.Buffer? || size != 8 * |v.bytes|
  {
  }

  // ---- Padding ----

  /**
   * The fill loop from byte `i` on, for a fill the 32-bit shifts leave intact: the remaining bits of
   * the fill go out least significant byte first.
   */
  lemma {:induction false} FillLowBits(region: seq<bool>, base: nat, i: nat, size: nat, bytes: nat, f: int)
    requires 0 <= f < Pow2(31) && size == 8 * bytes && i <= bytes && base + bytes <= |region| / 8
    ensures FillFrom(region, base, i, size, f) == Ok(Overwrite(region, 8 * (base + i), LowBits(f, size - 8 * i)))
    decreases bytes - i
  {
    WholeBytesDiv(size, bytes);
    if i < bytes {
      FillStep(region, base, i, size, f);
      ShiftSmall(f);
      FillLowBits(SetByte(region, base + i, f % 256), base, i + 1, size, bytes, f / 256);
      FillByteThenRest(region, base + i, f, size - 8 * (i + 1));
      assert 8 * (base + (i + 1)) == 8 * (base + i + 1) && 8 + (size - 8 * (i + 1)) == size - 8 * i;
    } else {
      FillEnd(region, base, i, size, f);
    }
  }

  /** Eight times a count of bytes divides back into it, with nothing left over. */
  lemma WholeBytesDiv(size: nat, bytes: nat)
    requires size == 8 * bytes
    ensures size / 8 == bytes && size % 8 == 0
  {
  }

  /** One whole byte of the fill loop: the byte gets the fill's low 8 bits and the fill shifts right. */
  lemma {:induction false} FillStep(region: seq<bool>, base: nat, i: nat, size: nat, f: int)
    requires 0 <= f < Pow2(31) && size % 8 == 0 && i <= size / 8 && base + size / 8 <= |region| / 8
    requires i < size / 8
    ensures FillFrom(region, base, i, size, f) == FillFrom(SetByte(region, base + i, f % 256), base, i + 1, size, f / 256)
  {
    ShiftSmall(f);
  }

  /** With a whole number of bytes, the loop ends writing nothing more. */
  lemma {:induction false} FillEnd(region: seq<bool>, base: nat, i: nat, size: nat, f: int)
    requires 0 <= f < Pow2(31) && size % 8 == 0 && i <= size / 8 && base + size / 8 <= |region| / 8
    requires i == size / 8
    ensures FillFrom(region, base, i, size, f) == Ok(Overwrite(region, 8 * (base + i), LowBits(f, size - 8 * i)))
  {
    assert Overwrite(region, 8 * (base + i), LowBits(f, size - 8 * i)) == region;
  }

  /** A non-negative fill below 2^31 survives the 32-bit conversion, so the shift is a plain division. */
  lemma {:induction false} ShiftSmall(f: int)
    requires 0 <= f < Pow2(31)
    ensures ShiftRight8(f) == f / 256 && 0 <= f / 256 < Pow2(31)
  {
    assert Pow2(32) == 2 * Pow2(31);
    DivModUnique(f, Pow2(32), 0, f);
  }

  /** Writing the low byte of a fill, then the rest of the fill above it, writes the fill. */
  lemma {:induction false} FillByteThenRest(region: seq<bool>, k: nat, f: nat, rest: nat)
    requires 8 * (k + 1) + rest <= |region|
    ensures Overwrite(SetByte(region, k, f % 256), 8 * (k + 1), LowBits(f / 256, rest))
      == Overwrite(region, 8 * k, LowBits(f, 8 + rest))
  {
    assert (f % 256) % 256 == f % 256;
    OverwriteAdjacent(region, 8 * k, LowBits(f % 256, 8), LowBits(f / 256, rest));
    LowBitsByte(f, rest);
  }

  /**
   * Padding with a fill and a whole number of bytes writes the fill least significant byte first,
   * over the bytes from the one holding the offset of a shared region, and consumes nothing from the
   * source.
   */
  lemma {:induction false} PaddingFill(s: Struct, source: Feed, region: seq<bool>, offset: nat, littleEndian: Option<bool>, context: Ctx,
                                       size: nat, f: int)
    requires s.Padding? && s.fill.Some? && Resolve(s.bits, context, InBits) == Ok(size) && size % 8 == 0
    requires f == s.fill.value(context) && 0 <= f < Pow2(31)
    requires offset / 8 + size / 8 <= |region| / 8
    ensures PackSpec(s, source, PackOpts(Some(region), offset, littleEndian, context))
      == Ok(Packed(Overwrite(region, 8 * (offset / 8), LowBits(f, size)), size, source))
  {
    FillAll(region, offset / 8, size, f);
    PaddingFillBody(s, source, Some(region), offset, littleEndian, context, size, FillFrom(region, offset / 8, 0, size, f));
  }

  /** Standalone, padding with a fill and a whole number of bytes gives just the fill's bits. */
  lemma {:induction false} PaddingFillAlone(s: Struct, source: Feed, littleEndian: Option<bool>, context: Ctx, size: nat, f: int)
    requires s.Padding? && s.fill.Some? && Resolve(s.bits, context, InBits) == Ok(size) && size % 8 == 0
    requires f == s.fill.value(context) && 0 <= f < Pow2(31)
    ensures PackSpec(s, source, PackOpts(None, 0, littleEndian, context)) == Ok(Packed(LowBits(f, size), size, source))
  {
    WholeBytes(size);
    FillAll(Zeros(size), 0, size, f);
    PaddingFillBody(s, source, None, 0, littleEndian, context, size, FillFrom(Zeros(size), 0, 0, size, f));
    assert Overwrite(Zeros(size), 0, LowBits(f, size)) == LowBits(f, size);
  }

  /** The whole fill loop, over a whole number of bytes with room for them: the fill's bits, least significant byte first. */
  lemma {:induction false} FillAll(region: seq<bool>, base: nat, size: nat, f: int)
    requires 0 <= f < Pow2(31) && size % 8 == 0 && base + size / 8 <= |region| / 8
    ensures FillFrom(region, base, 0, size, f) == Ok(Overwrite(region, 8 * base, LowBits(f, size)))
  {
    FillLowBits(region, base, 0, size, size / 8, f);
    assert 8 * (base + 0) == 8 * base && size - 8 * 0 == size;
  }

  /** A whole number of bytes rounds up to itself. */
  lemma WholeBytes(size: nat)
    requires size % 8 == 0
    ensures 8 * CeilBytes(size) == size
  {
  }

  /** Padding with a fill packs what its fill loop writes over the region (a zeroed one, standalone). */
  lemma {:induction false} PaddingFillBody(s: Struct, source: Feed, view: Option<seq<bool>>, offset: nat, littleEndian: Option<bool>,
                                           context: Ctx, size: nat, r: Result<seq<bool>>)
    requires s.Padding? && s.fill.Some? && Resolve(s.bits, context, InBits) == Ok(size)
    requires r == FillFrom(if view.Some? then view.value else Zeros(8 * CeilBytes(size)), offset / 8, 0, size, s.fill.value(context))
    ensures r.Ok? ==> PackSpec(s, source, PackOpts(view, offset, littleEndian, context)) == Ok(Packed(r.value, size, source))
  {
    assert PackSpec(s, source, PackOpts(view, offset, littleEndian, context)) == PackPadding(s, source, PackOpts(view, offset, littleEndian, context));
  }

  /** Padding without a fill writes nothing: the region comes back as it was (or zeroed, standalone). */
  lemma PaddingWithoutFill(s: Struct, source: Feed, o: PackOpts, size: nat)
    requires s.Padding? && s.fill.None? && Resolve(s.bits, o.context, InBits) == Ok(size)
    ensures PackSpec(s, source, o)
      == Ok(Packed(if o.view.Some? then o.view.value else Zeros(8 * CeilBytes(size)), size, source))
  {
  }

  /**
   * Padding's parse never reads the region: any two regions give the same result, which is `null`
   * delivered nowhere when there is no decoder.
   */
  lemma PaddingParseIgnoresRegion(s: Struct, a: seq<bool>, b: seq<bool>, o: ParseOpts, sink: Sink, size: nat)
    requires s.Padding? && Resolve(s.bits, o.context, InBits) == Ok(size)
    ensures ParseSpec(s, a, o, sink) == ParseSpec(s, b, o, sink)
    ensures s.constant.None? ==> ParseSpec(s, a, o, sink) == Ok(Parsed(Null, size, o.context))
  {
  }
}
