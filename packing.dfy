/**
 * `pack` as the source runs it: on a mutable region (`array<bool>`, the `DataView`) that is either the
 * caller's, updated in place, or freshly allocated by the component. Every method is proved to do
 * exactly what the function of the same name in module Transcode describes.
 */
module Packing {
  import opened Wrappers
  import opened Codec
  import opened Document
  import opened Structs
  import opened Transcode

  /** A `pack` result on a mutable region. */
  datatype Out = Out(buffer: array<bool>, size: nat, feed: Feed)

  /** The objects a `pack` into `view` may write: the shared region, if there is one. */
  function Footprint(view: Option<array<bool>>): set<object>
  {
    if view.Some? then {view.value} else {}
  }

  /** The shared region's current contents, as module Transcode sees it. */
  function Snapshot(view: Option<array<bool>>): Option<seq<bool>>
    reads Footprint(view)
  {
    if view.Some? then Some(view.value[..]) else None
  }

  /** The method's result is the specification's, on the current contents of its region. */
  predicate Agrees(r: Result<Out>, spec: Result<Packed>)
    reads if r.Ok? then {r.value.buffer} else {}
  {
    (r.Ok? <==> spec.Ok?) &&
    (r.Err? ==> r.error == spec.error) &&
    (r.Ok? ==> r.value.buffer[..] == spec.value.buffer && r.value.size == spec.value.size && r.value.feed == spec.value.feed)
  }

  // ---- writing bits ----

  /** Writes `bits` at bit offset `off`; every other bit stays. */
  method WriteBits(a: array<bool>, off: nat, bits: seq<bool>)
    requires off + |bits| <= a.Length
    modifies a
    ensures a[..] == Overwrite(old(a[..]), off, bits)
  {
    forall p | off <= p < off + |bits| {
      a[p] := bits[p - off];
    }
  }

  /** `DataView.prototype.setUint8(k, b)` on a byte index already known to be in range. */
  method SetUint8(a: array<bool>, k: nat, b: int)
    requires 8 * k + 8 <= a.Length
    modifies a
    ensures a[..] == SetByte(old(a[..]), k, b)
  {
    WriteBits(a, 8 * k, LowBits(b % 256, 8));
  }

  /** The fill loop's outcome: the region as the loop function leaves it, or the error it stops with. */
  predicate Filled(r: Result<()>, now: seq<bool>, spec: Result<seq<bool>>)
  {
    (r.Ok? <==> spec.Ok?) && (r.Ok? ==> now == spec.value) && (r.Err? ==> spec == Err(r.error))
  }

  /** Padding's fill loop, `setUint8` by `setUint8`; a write past the end is a `RangeError`. */
  method Fill(a: array<bool>, base: nat, size: nat, fill: int) returns (r: Result<()>)
    modifies a
    ensures Filled(r, a[..], FillFrom(old(a[..]), base, 0, size, fill))
  {
    var i := 0;
    var f := fill;
    var n := size / 8;
    while i < n
      invariant 0 <= i <= n
      invariant FillFrom(a[..], base, i, size, f) == FillFrom(old(a[..]), base, 0, size, fill)
    {
      FillNext(a[..], base, i, size, f);
      if base + i >= a.Length / 8 {
        return Err(OutOfRange);
      }
      SetUint8(a, base + i, f % 256);
      f := ShiftRight8(f);
      i := i + 1;
    }
    r := FillRest(a, base, i, size, f);
  }

  /** The fill loop's last, partial byte, if any. */
  method FillRest(a: array<bool>, base: nat, i: nat, size: nat, f: int) returns (r: Result<()>)
    requires i == size / 8
    modifies a
    ensures Filled(r, a[..], FillFrom(old(a[..]), base, i, size, f))
  {
    FillTail(a[..], base, i, size, f);
    if size % 8 != 0 {
      if base + i >= a.Length / 8 {
        return Err(OutOfRange);
      }
      SetUint8(a, base + i, ToInt32(f) % Pow2(size % 8));
    }
    return Ok(());
  }

  /** One whole byte of the fill loop: the byte takes the fill modulo 256 and the fill shifts right; past the end, a `RangeError`. */
  lemma {:induction false} FillNext(region: seq<bool>, base: nat, i: nat, size: nat, f: int)
    requires i < size / 8
    ensures base + i >= |region| / 8 ==> FillFrom(region, base, i, size, f) == Err(OutOfRange)
    ensures base + i < |region| / 8 ==> (8 * (base + i) + 8 <= |region| &&
      FillFrom(region, base, i, size, f) == FillFrom(SetByte(region, base + i, f % 256), base, i + 1, size, ShiftRight8(f)))
  {
    if base + i < |region| / 8 {
      ByteInRange(base + i, |region|);
    }
  }

  /** After the whole bytes: a partial last byte takes the low bits of the fill, if it is in the region. */
  lemma {:induction false} FillTail(region: seq<bool>, base: nat, i: nat, size: nat, f: int)
    requires i == size / 8
    ensures size % 8 == 0 ==> FillFrom(region, base, i, size, f) == Ok(region)
    ensures size % 8 != 0 && base + i >= |region| / 8 ==> FillFrom(region, base, i, size, f) == Err(OutOfRange)
    ensures size % 8 != 0 && base + i < |region| / 8 ==>
      8 * (base + i) + 8 <= |region| && FillFrom(region, base, i, size, f) == Ok(SetByte(region, base + i, ToInt32(f) % Pow2(size % 8)))
  {
    if base + i < |region| / 8 {
      ByteInRange(base + i, |region|);
    }
  }

  /** A byte index below the region's byte count is a whole byte of it. */
  lemma {:induction false} ByteInRange(k: nat, length: nat)
    requires k < length / 8
    ensures 8 * k + 8 <= length
  {
  }

  /** One more byte copied: the region after `i + 1` bytes is the region after `i` with byte `i` set. */
  lemma {:induction false} CopyStep(region: seq<bool>, before: seq<bool>, base: nat, bytes: seq<Byte>, i: nat)
    requires i < |bytes| && 8 * (base + i) + 8 <= |region| && |before| == |region|
    requires i > 0 ==> before == Overwrite(region, 8 * base, RegionOf(bytes[..i]))
    requires i == 0 ==> before == region
    ensures SetByte(before, base + i, bytes[i]) == Overwrite(region, 8 * base, RegionOf(bytes[..i + 1]))
  {
    assert bytes[..i + 1] == bytes[..i] + [bytes[i]];
    RegionOfSnoc(bytes[..i], bytes[i]);
    assert bytes[i] % 256 == bytes[i];
    if i > 0 {
      OverwriteAdjacent(region, 8 * base, RegionOf(bytes[..i]), LowBits(bytes[i], 8));
    } else {
      assert RegionOf(bytes[..i]) == [];
    }
  }

  /** `Byte_Buffer`'s copy, `new Uint8Array(buffer).forEach(... setUint8 ...)`. */
  method Copy(a: array<bool>, base: nat, bytes: seq<Byte>) returns (r: Result<()>)
    modifies a
    ensures r.Ok? <==> CopyBytes(old(a[..]), base, bytes).Ok?
    ensures r.Ok? ==> a[..] == CopyBytes(old(a[..]), base, bytes).value
    ensures r.Err? ==> CopyBytes(old(a[..]), base, bytes) == Err(r.error)
  {
    var i := 0;
    while i < |bytes|
      invariant 0 <= i <= |bytes|
      invariant i > 0 ==> base + i <= a.Length / 8
      invariant i > 0 ==> a[..] == Overwrite(old(a[..]), 8 * base, RegionOf(bytes[..i]))
      invariant i == 0 ==> a[..] == old(a[..])
    {
      if base + i >= a.Length / 8 {
        return Err(OutOfRange);
      }
      ByteInRange(base + i, a.Length);
      CopyStep(old(a[..]), a[..], base, bytes, i);
      SetUint8(a, base + i, bytes[i]);
      i := i + 1;
    }
    if i > 0 {
      assert bytes[..i] == bytes;
    }
    return Ok(());
  }

  // ---- concat_buffers ----

  /**
   * The byte array `concat_buffers` builds for one fragment, packed at `off`: `Uint(8)` by `Uint(8)`,
   * then a `Bits` field for the remainder, each fed the next byte of the fragment.
   */
  method Place(a: array<bool>, off: nat, bytes: seq<Byte>, size: nat) returns (r: Result<()>)
    modifies a
    ensures Filled(r, a[..], PlaceBytes(old(a[..]), off, bytes, 0, size))
  {
    var j := 0;
    while j < size / 8
      invariant 0 <= j <= size / 8
      invariant PlaceBytes(a[..], off, bytes, j, size) == PlaceBytes(old(a[..]), off, bytes, 0, size)
      decreases size / 8 - j
    {
      PlaceNext(a[..], off, bytes, j, size);
      if j >= |bytes| {
        return Err(InsufficientData);
      }
      if off + 8 * j + 8 > a.Length {
        return Err(OutOfRange);
      }
      WriteBits(a, off + 8 * j, Serialize(UintKind, bytes[j], 8, false));
      j := j + 1;
    }
    r := PlaceRest(a, off, bytes, j, size);
  }

  /** The `Bits` field for a fragment's remainder, if any. */
  method PlaceRest(a: array<bool>, off: nat, bytes: seq<Byte>, j: nat, size: nat) returns (r: Result<()>)
    requires j == size / 8
    modifies a
    ensures Filled(r, a[..], PlaceBytes(old(a[..]), off, bytes, j, size))
  {
    if size % 8 != 0 {
      if j >= |bytes| {
        return Err(InsufficientData);
      }
      if off + 8 * j + size % 8 > a.Length {
        return Err(OutOfRange);
      }
      WriteBits(a, off + 8 * j, Serialize(BitsKind, bytes[j], size % 8, false));
    }
    return Ok(());
  }

  /** One whole byte of a fragment: a missing byte or a write past the end fails, otherwise the byte is written and the loop moves on. */
  lemma {:induction false} PlaceNext(out: seq<bool>, off: nat, bytes: seq<Byte>, j: nat, size: nat)
    requires j < size / 8
    ensures j >= |bytes| ==> PlaceBytes(out, off, bytes, j, size) == Err(InsufficientData)
    ensures j < |bytes| && off + 8 * j + 8 > |out| ==> PlaceBytes(out, off, bytes, j, size) == Err(OutOfRange)
    ensures j < |bytes| && off + 8 * j + 8 <= |out| ==>
      PlaceBytes(out, off, bytes, j, size) == PlaceBytes(Overwrite(out, off + 8 * j, Serialize(UintKind, bytes[j], 8, false)), off, bytes, j + 1, size)
  {
  }

  /** `concat_buffers`: a fresh zeroed region of `ceil(total / 8)` bytes, each fragment at the running offset. */
  method ConcatBuffers(frags: seq<Fragment>, total: nat) returns (r: Result<array<bool>>)
    ensures r.Ok? <==> Concat(frags, total).Ok?
    ensures r.Ok? ==> fresh(r.value) && r.value[..] == Concat(frags, total).value
    ensures r.Err? ==> Concat(frags, total) == Err(r.error)
  {
    var a := new bool[8 * CeilBytes(total)](_ => false);
    assert a[..] == Zeros(8 * CeilBytes(total));
    var off: nat := 0;
    var k := 0;
    while k < |frags|
      invariant 0 <= k <= |frags|
      invariant ConcatFrom(frags, k, a[..], off) == Concat(frags, total)
    {
      var placed := Place(a, off, BytesOf(frags[k].buffer), frags[k].size);
      if placed.Err? {
        return Err(placed.error);
      }
      off := off + frags[k].size;
      k := k + 1;
    }
    return Ok(a);
  }

  // ---- the recursive descent ----

  /** A field that packs moves the field loop on to the next field, the result absorbed. */
  lemma {:induction false} PackFieldsNext(s: Struct, i: nat, encoded: Doc, stack: Ctx, base: nat, littleEndian: Option<bool>,
                                          acc: PackAcc, p: Packed)
    requires s.NamedAggregate? && i < |s.fields|
    requires PackSpec(s.fields[i].1, Keyed(encoded, s.fields[i].0), ChildOpts(acc, base, littleEndian, stack)) == Ok(p)
    ensures PackFields(s, i, encoded, stack, base, littleEndian, acc)
      == PackFields(s, i + 1, encoded, stack, base, littleEndian, Absorb(acc, p, acc.feed))
  {
  }

  /** An item that packs moves the pass on to the next item, the result and the fetcher it leaves absorbed. */
  lemma {:induction false} PackPassNext(s: Struct, i: nat, stack: Ctx, base: nat, littleEndian: Option<bool>, acc: PackAcc, p: Packed, next: PackAcc)
    requires s.IsArray() && i < |s.items|
    requires PackSpec(s.items[i], acc.feed, ChildOpts(acc, base, littleEndian, stack)) == Ok(p)
    requires next == Absorb(acc, p, p.feed)
    ensures Transcode.PackPass(s, i, stack, base, littleEndian, acc) == Transcode.PackPass(s, i + 1, stack, base, littleEndian, next)
  {
  }

  /** A pass whose item `i` fails fails with that item's error. */
  lemma {:induction false} PackPassFails(s: Struct, i: nat, stack: Ctx, base: nat, littleEndian: Option<bool>, acc: PackAcc, e: Error)
    requires s.IsArray() && i < |s.items|
    requires PackSpec(s.items[i], acc.feed, ChildOpts(acc, base, littleEndian, stack)) == Err(e)
    ensures Transcode.PackPass(s, i, stack, base, littleEndian, acc) == Err(e)
  {
  }

  /** A pass past its last item returns its state. */
  lemma {:induction false} PackPassDone(s: Struct, stack: Ctx, base: nat, littleEndian: Option<bool>, acc: PackAcc)
    requires s.IsArray()
    ensures Transcode.PackPass(s, |s.items|, stack, base, littleEndian, acc) == Ok(acc)
  {
  }

  /** A loop's state apart from the shared region, which the methods update in place. */
  datatype State = State(frags: seq<Fragment>, offset: nat, feed: Feed)

  function AccOf(view: Option<seq<bool>>, st: State): PackAcc
  {
    PackAcc(view, st.frags, st.offset, st.feed)
  }

  /** A loop method's result is the loop function's, with the region as it now is. */
  predicate Matches(r: Result<State>, spec: Result<PackAcc>, now: Option<seq<bool>>)
  {
    (r.Ok? <==> spec.Ok?) &&
    (r.Err? ==> r.error == spec.error) &&
    (r.Ok? ==> spec.value == AccOf(now, r.value))
  }

  /** A successful `pack` into a shared region returns that region. */
  predicate Lands(r: Result<Out>, view: Option<array<bool>>)
  {
    r.Ok? && view.Some? ==> r.value.buffer == view.value
  }

  /** The region a component writes: the shared one, or a fresh zeroed one of `n` bits. */
  method Region(view: Option<array<bool>>, n: nat) returns (a: array<bool>)
    ensures view.Some? ==> a == view.value
    ensures view.None? ==> fresh(a) && a[..] == Zeros(n)
  {
    if view.Some? {
      a := view.value;
    } else {
      a := new bool[n](_ => false);
      assert a[..] == Zeros(n);
    }
  }

  /** `pack`. */
  method Pack(s: Struct, source: Feed, view: Option<array<bool>>, offset: nat, littleEndian: Option<bool>, context: Ctx)
    returns (r: Result<Out>)
    modifies Footprint(view)
    ensures Agrees(r, PackSpec(s, source, PackOpts(old(Snapshot(view)), offset, littleEndian, context)))
    ensures Lands(r, view)
    ensures r.Ok? && view.None? ==> fresh(r.value.buffer)
    decreases s, 5, 0
  {
    match s
    case Primitive(_, _, _) => r := PackPrimitive(s, source, view, offset, littleEndian, context);
    case Padding(_, _, _) => r := PackPadding(s, source, view, offset, context);
    case ByteSpan(_, _) => r := PackByteSpan(s, source, view, offset, context);
    case NamedAggregate(_, _) => r := PackNamed(s, source, view, offset, littleEndian, context);
    case PositionalAggregate(_, _) => r := PackPositional(s, source, view, offset, littleEndian, context);
    case Repeat(_, _, _) => r := PackPositional(s, source, view, offset, littleEndian, context);
    case Branch(_, _, _) => r := PackBranch(s, source, view, offset, littleEndian, context);
    case Embed(_) => r := PackEmbed(s, source, view, offset, littleEndian, context);
    case NotStruct => r := Err(NotAStruct);
  }

  /** The primitive field's `pack`: the codec writes the value at the offset. */
  method PackPrimitive(s: Struct, source: Feed, view: Option<array<bool>>, offset: nat, littleEndian: Option<bool>, context: Ctx)
    returns (r: Result<Out>)
    requires s.Primitive?
    modifies Footprint(view)
    ensures Agrees(r, Transcode.PackPrimitive(s, source, PackOpts(old(Snapshot(view)), offset, littleEndian, context)))
    ensures Lands(r, view)
    ensures r.Ok? && view.None? ==> fresh(r.value.buffer)
  {
    var a := Region(view, 8 * CeilBytes(s.width));
    var fetched := FetchAndEncode(source, s.tc.encode, context);
    if fetched.Err? {
      return Err(fetched.error);
    }
    var (v, feed) := fetched.value;
    if !v.Number? {
      return Err(WrongShape);
    }
    if offset + s.width > a.Length {
      return Err(OutOfRange);
    }
    WriteBits(a, offset, Serialize(s.kind, v.n, s.width, IsLittle(Endian(littleEndian, s.tc.littleEndian))));
    return Ok(Out(a, s.width, feed));
  }

  /** Padding's `pack`: the fill loop when there is a fill, nothing written otherwise. */
  method PackPadding(s: Struct, source: Feed, view: Option<array<bool>>, offset: nat, context: Ctx)
    returns (r: Result<Out>)
    requires s.Padding?
    modifies Footprint(view)
    ensures forall littleEndian :: Agrees(r, Transcode.PackPadding(s, source, PackOpts(old(Snapshot(view)), offset, littleEndian, context)))
    ensures Lands(r, view)
    ensures r.Ok? && view.None? ==> fresh(r.value.buffer)
  {
    var resolved := Resolve(s.bits, context, InBits);
    if resolved.Err? {
      return Err(resolved.error);
    }
    var size := resolved.value;
    var a := Region(view, 8 * CeilBytes(size));
    if s.fill.Some? {
      var filled := Fill(a, offset / 8, size, s.fill.value(context));
      if filled.Err? {
        return Err(filled.error);
      }
    }
    return Ok(Out(a, size, source));
  }

  /** `Byte_Buffer`'s `pack`: the buffer itself standalone, copied byte by byte into a shared region. */
  method PackByteSpan(s: Struct, source: Feed, view: Option<array<bool>>, offset: nat, context: Ctx)
    returns (r: Result<Out>)
    requires s.ByteSpan?
    modifies Footprint(view)
    ensures forall littleEndian :: Agrees(r, Transcode.PackByteSpan(s, source, PackOpts(old(Snapshot(view)), offset, littleEndian, context)))
    ensures Lands(r, view)
    ensures r.Ok? && view.None? ==> fresh(r.value.buffer)
  {
    var resolved := Resolve(s.length, context, InBytes);
    if resolved.Err? {
      return Err(resolved.error);
    }
    var size := resolved.value;
    var fetched := FetchAndEncode(source, s.tc.encode, context);
    if fetched.Err? {
      return Err(fetched.error);
    }
    var (v, feed) := fetched.value;
    if !v.Buffer? || size != 8 * |v.bytes| {
      return Err(LengthMismatch(size));
    }
    if view.None? {
      var a := new bool[8 * |v.bytes|](p requires 0 <= p < 8 * |v.bytes| => RegionOf(v.bytes)[p]);
      assert a[..] == RegionOf(v.bytes);
      return Ok(Out(a, size, feed));
    }
    var copied := Copy(view.value, offset / 8, v.bytes);
    if copied.Err? {
      return Err(copied.error);
    }
    return Ok(Out(view.value, size, feed));
  }

  /** The end of an aggregate's `pack`: the shared region, or `concat_buffers` of the fragments. */
  method Finish(view: Option<array<bool>>, st: State) returns (r: Result<(array<bool>, nat)>)
    ensures var spec := Transcode.Finish(AccOf(Snapshot(view), st));
      (r.Ok? <==> spec.Ok?) && (r.Err? ==> r.error == spec.error) &&
      (r.Ok? ==> r.value.0[..] == spec.value.0 && r.value.1 == spec.value.1)
    ensures r.Ok? && view.Some? ==> r.value.0 == view.value
    ensures r.Ok? && view.None? ==> fresh(r.value.0)
  {
    if view.Some? {
      return Ok((view.value, st.offset));
    }
    var joined := ConcatBuffers(st.frags, st.offset);
    if joined.Err? {
      return Err(joined.error);
    }
    return Ok((joined.value, st.offset));
  }

  /** `Binary_Map`'s `pack` without an `encoded` argument. */
  method PackNamed(s: Struct, source: Feed, view: Option<array<bool>>, offset: nat, littleEndian: Option<bool>, context: Ctx)
    returns (r: Result<Out>)
    requires s.NamedAggregate?
    modifies Footprint(view)
    ensures Agrees(r, Transcode.PackNamed(s, source, PackOpts(old(Snapshot(view)), offset, littleEndian, context)))
    ensures Lands(r, view)
    ensures r.Ok? && view.None? ==> fresh(r.value.buffer)
    decreases s, 4, 0
  {
    var fetched := FetchAndEncode(source, s.tc.encode, context);
    if fetched.Err? {
      return Err(fetched.error);
    }
    var (encoded, feed) := fetched.value;
    var body := PackFieldsBody(s, encoded, SetContext(encoded, context), view, offset, Endian(littleEndian, s.tc.littleEndian));
    if body.Err? {
      return Err(body.error);
    }
    return Ok(Out(body.value.0, body.value.1, feed));
  }

  /** `Binary_Map`'s `pack` once `encoded` is known: the loop over the fields, then the result. */
  method PackFieldsBody(s: Struct, encoded: Doc, stack: Ctx, view: Option<array<bool>>, base: nat, littleEndian: Option<bool>)
    returns (r: Result<(array<bool>, nat)>)
    requires s.NamedAggregate?
    modifies Footprint(view)
    ensures var spec := Transcode.PackFieldsBody(s, encoded, stack, old(Snapshot(view)), base, littleEndian);
      (r.Ok? <==> spec.Ok?) && (r.Err? ==> r.error == spec.error) &&
      (r.Ok? ==> r.value.0[..] == spec.value.0 && r.value.1 == spec.value.1)
    ensures r.Ok? && view.Some? ==> r.value.0 == view.value
    ensures r.Ok? && view.None? ==> fresh(r.value.0)
    decreases s, 3, 0
  {
    var st := State([], 0, Given(Null));
    var i := 0;
    while i < |s.fields|
      invariant 0 <= i <= |s.fields|
      invariant PackFields(s, i, encoded, stack, base, littleEndian, AccOf(Snapshot(view), st))
        == PackFields(s, 0, encoded, stack, base, littleEndian, AccOf(old(Snapshot(view)), State([], 0, Given(Null))))
      invariant st.feed == Given(Null)
    {
      var (key, child) := s.fields[i];
      ghost var acc := AccOf(Snapshot(view), st);
      var p := Pack(child, Keyed(encoded, key), view, if view.Some? then base + st.offset else 0, littleEndian, stack);
      if p.Err? {
        return Err(p.error);
      }
      ghost var packed := Packed(p.value.buffer[..], p.value.size, p.value.feed);
      PackFieldsNext(s, i, encoded, stack, base, littleEndian, acc, packed);
      assert Snapshot(view) == if view.Some? then Some(packed.buffer) else None;
      st := State(if view.Some? then st.frags else st.frags + [Fragment(p.value.buffer[..], p.value.size)], st.offset + p.value.size, st.feed);
      assert AccOf(Snapshot(view), st) == Absorb(acc, packed, acc.feed);
      i := i + 1;
    }
    r := Finish(view, st);
  }

  /** `Binary_Array`'s `pack` without a `fetcher` argument: the encoded array's iterator feeds the items. */
  method PackPositional(s: Struct, source: Feed, view: Option<array<bool>>, offset: nat, littleEndian: Option<bool>, context: Ctx)
    returns (r: Result<Out>)
    requires s.IsArray()
    modifies Footprint(view)
    ensures Agrees(r, Transcode.PackPositional(s, source, PackOpts(old(Snapshot(view)), offset, littleEndian, context)))
    ensures Lands(r, view)
    ensures r.Ok? && view.None? ==> fresh(r.value.buffer)
    decreases s, 4, 0
  {
    var fetched := FetchAndEncode(source, s.tc.encode, context);
    if fetched.Err? {
      return Err(fetched.error);
    }
    var (encoded, feed) := fetched.value;
    if !encoded.List? {
      return Err(WrongShape);
    }
    var body := PackArrayBody(s, Cursor(encoded.items, 0), SetContext(encoded, context), context, view, offset, Endian(littleEndian, s.tc.littleEndian));
    if body.Err? {
      return Err(body.error);
    }
    return Ok(Out(body.value.0, body.value.1, feed));
  }

  /** `Binary_Array`'s `pack` once the fetcher is known: `__pack_loop`, then the result. */
  method PackArrayBody(s: Struct, fetcher: Feed, stack: Ctx, parent: Ctx, view: Option<array<bool>>, base: nat, littleEndian: Option<bool>)
    returns (r: Result<(array<bool>, nat, Feed)>)
    requires s.IsArray()
    modifies Footprint(view)
    ensures var spec := Transcode.PackArrayBody(s, fetcher, stack, parent, old(Snapshot(view)), base, littleEndian);
      (r.Ok? <==> spec.Ok?) && (r.Err? ==> r.error == spec.error) &&
      (r.Ok? ==> r.value.0[..] == spec.value.0 && r.value.1 == spec.value.1 && r.value.2 == spec.value.2)
    ensures r.Ok? && view.Some? ==> r.value.0 == view.value
    ensures r.Ok? && view.None? ==> fresh(r.value.0)
    decreases s, 3, 0
  {
    var looped := PackLoop(s, stack, parent, base, littleEndian, view, State([], 0, fetcher));
    if looped.Err? {
      return Err(looped.error);
    }
    var finished := Finish(view, looped.value);
    if finished.Err? {
      return Err(finished.error);
    }
    return Ok((finished.value.0, finished.value.1, looped.value.feed));
  }

  /** `__pack_loop`, with `Repeat`'s override: one pass, or passes by count, or passes by byte budget. */
  method PackLoop(s: Struct, stack: Ctx, parent: Ctx, base: nat, littleEndian: Option<bool>, view: Option<array<bool>>, st0: State)
    returns (r: Result<State>)
    requires s.IsArray()
    modifies Footprint(view)
    ensures Matches(r, Transcode.PackLoop(s, stack, parent, base, littleEndian, AccOf(old(Snapshot(view)), st0)), Snapshot(view))
    decreases s, 2, 1
  {
    if s.PositionalAggregate? {
      r := PackPass(s, stack, base, littleEndian, view, st0);
      return;
    }
    match s.policy
    case NoPolicy =>
      return Err(NoRepeatPolicy);
    case ByCount(count) =>
      var resolved := Resolve(count, parent, InBytes);
      if resolved.Err? {
        return Err(resolved.error);
      }
      var passes := CeilBytes(resolved.value);
      var st := st0;
      var k := 0;
      while k < passes
        invariant 0 <= k <= passes
        invariant PackCount(s, passes, k, stack, base, littleEndian, AccOf(Snapshot(view), st))
          == PackCount(s, passes, 0, stack, base, littleEndian, AccOf(old(Snapshot(view)), st0))
      {
        var pass := PackPass(s, stack, base, littleEndian, view, st);
        if pass.Err? {
          return Err(pass.error);
        }
        st := pass.value;
        k := k + 1;
      }
      return Ok(st);
    case ByBytes(bytes) =>
      var resolved := Resolve(bytes, parent, InBytes);
      if resolved.Err? {
        return Err(resolved.error);
      }
      var budget := resolved.value;
      var st := st0;
      while st.offset < budget
        invariant PackBudget(s, budget, stack, base, littleEndian, AccOf(Snapshot(view), st))
          == PackBudget(s, budget, stack, base, littleEndian, AccOf(old(Snapshot(view)), st0))
        decreases budget - st.offset, FeedLeft(st.feed)
      {
        var pass := PackPass(s, stack, base, littleEndian, view, st);
        if pass.Err? {
          return Err(pass.error);
        }
        if pass.value.offset == st.offset && FeedLeft(pass.value.feed) >= FeedLeft(st.feed) {
          return Err(Diverges);
        }
        st := pass.value;
      }
      if st.offset > budget {
        return Err(Overrun(budget));
      }
      return Ok(st);
  }

  /** One pass of `__pack_loop`: every item pulls from the shared fetcher. */
  method PackPass(s: Struct, stack: Ctx, base: nat, littleEndian: Option<bool>, view: Option<array<bool>>, st0: State)
    returns (r: Result<State>)
    requires s.IsArray()
    modifies Footprint(view)
    ensures Matches(r, Transcode.PackPass(s, 0, stack, base, littleEndian, AccOf(old(Snapshot(view)), st0)), Snapshot(view))
    decreases s, 1
  {
    ghost var spec := Transcode.PackPass(s, 0, stack, base, littleEndian, AccOf(Snapshot(view), st0));
    var st := st0;
    var i := 0;
    while i < |s.items|
      invariant 0 <= i <= |s.items|
      invariant Transcode.PackPass(s, i, stack, base, littleEndian, AccOf(Snapshot(view), st)) == spec
    {
      var q := PackItem(s, i, stack, base, littleEndian, view, st);
      if q.Err? {
        return Err(q.error);
      }
      st := q.value;
      i := i + 1;
    }
    PackPassDone(s, stack, base, littleEndian, AccOf(Snapshot(view), st));
    return Ok(st);
  }

  /** Item `i` of a pass pulls from the shared fetcher; the pass goes on from the state it leaves, or fails with it. */
  method PackItem(s: Struct, i: nat, stack: Ctx, base: nat, littleEndian: Option<bool>, view: Option<array<bool>>, st: State)
    returns (r: Result<State>)
    requires s.IsArray() && i < |s.items|
    modifies Footprint(view)
    ensures r.Err? ==> Transcode.PackPass(s, i, stack, base, littleEndian, AccOf(old(Snapshot(view)), st)) == Err(r.error)
    ensures r.Ok? ==> Transcode.PackPass(s, i, stack, base, littleEndian, AccOf(old(Snapshot(view)), st))
                        == Transcode.PackPass(s, i + 1, stack, base, littleEndian, AccOf(Snapshot(view), r.value))
    decreases s, 0
  {
    ghost var acc := AccOf(Snapshot(view), st);
    var p := Pack(s.items[i], st.feed, view, if view.Some? then base + st.offset else 0, littleEndian, stack);
    if p.Err? {
      PackPassFails(s, i, stack, base, littleEndian, acc, p.error);
      return Err(p.error);
    }
    ghost var packed := Packed(p.value.buffer[..], p.value.size, p.value.feed);
    assert Snapshot(view) == if view.Some? then Some(packed.buffer) else None;
    var next := State(if view.Some? then st.frags else st.frags + [Fragment(p.value.buffer[..], p.value.size)], st.offset + p.value.size, p.value.feed);
    PackPassNext(s, i, stack, base, littleEndian, acc, packed, AccOf(Snapshot(view), next));
    return Ok(next);
  }

  /** `Branch`'s `pack`: the chosen Struct packs, with the same source and options. */
  method PackBranch(s: Struct, source: Feed, view: Option<array<bool>>, offset: nat, littleEndian: Option<bool>, context: Ctx)
    returns (r: Result<Out>)
    requires s.Branch?
    modifies Footprint(view)
    ensures Agrees(r, Transcode.PackBranch(s, source, PackOpts(old(Snapshot(view)), offset, littleEndian, context)))
    ensures Lands(r, view)
    ensures r.Ok? && view.None? ==> fresh(r.value.buffer)
    decreases s, 4, 0
  {
    var chosen := Choose(s, context);
    if chosen.Err? {
      return Err(chosen.error);
    }
    r := Pack(chosen.value, source, view, offset, littleEndian, context);
  }

  /** `Embed`'s `pack`: an aggregate inside packs the enclosing document; anything else passes through. */
  method PackEmbed(s: Struct, source: Feed, view: Option<array<bool>>, offset: nat, littleEndian: Option<bool>, context: Ctx)
    returns (r: Result<Out>)
    requires s.Embed?
    modifies Footprint(view)
    ensures Agrees(r, Transcode.PackEmbed(s, source, PackOpts(old(Snapshot(view)), offset, littleEndian, context)))
    ensures Lands(r, view)
    ensures r.Ok? && view.None? ==> fresh(r.value.buffer)
    decreases s, 4, 0
  {
    var inner := s.inner;
    if |context| > 0 && inner.NamedAggregate? {
      var body := PackFieldsBody(inner, context[0], context, view, offset, Endian(littleEndian, inner.tc.littleEndian));
      if body.Err? {
        return Err(body.error);
      }
      return Ok(Out(body.value.0, body.value.1, source));
    } else if |context| > 0 && inner.IsArray() {
      var parent := context[1..];
      var encoded := if inner.tc.encode.Some? then inner.tc.encode.value(context[0], parent) else context[0];
      var stack := if inner.tc.encode.Some? then [encoded] else context;
      var body := PackArrayBody(inner, source, stack, parent, view, offset, Endian(littleEndian, inner.tc.littleEndian));
      if body.Err? {
        return Err(body.error);
      }
      return Ok(Out(body.value.0, body.value.1, body.value.2));
    }
    r := Pack(inner, source, view, offset, littleEndian, context);
  }
}
