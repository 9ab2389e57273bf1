/**
 * What `pack` and `parse` do, for every kind of Struct: a recursive descent that threads the bit
 * offset, the byte order, the context stack and either a shared region (the caller's `data_view`,
 * updated in place, here returned updated) or nothing, in which case every component returns its own
 * fragment and the enclosing aggregate concatenates them. Offsets and sizes are counted in bits; a
 * size of `n` bits is the source's `n / 8` bytes. The loops of the source are written as tail-recursive
 * functions whose accumulator is the loop's state; module Engine runs them as loops.
 */
module Transcode {
  import opened Wrappers
  import opened Codec
  import opened Document
  import opened Structs

  /** `Pack_Options`; `view` is the shared `data_view`, absent in fragment mode. */
  datatype PackOpts = PackOpts(view: Option<seq<bool>>, offset: nat, littleEndian: Option<bool>, context: Ctx)

  /** `Packed`, together with the state of the fetcher the caller handed in. */
  datatype Packed = Packed(buffer: seq<bool>, size: nat, feed: Feed)

  /** One child's result kept for concatenation. */
  datatype Fragment = Fragment(buffer: seq<bool>, size: nat)

  datatype ParseOpts = ParseOpts(offset: nat, littleEndian: Option<bool>, context: Ctx)

  /** `Parsed`, together with the context after delivery (only its current document can change). */
  datatype Parsed = Parsed(data: Doc, size: nat, context: Ctx)

  /** `little_endian = LE`: the option when given, else the component's own setting. */
  function Endian(option: Option<bool>, own: Option<bool>): Option<bool>
  {
    if option.Some? then option else own
  }

  predicate IsLittle(littleEndian: Option<bool>)
  {
    littleEndian == Some(true)
  }

  // ---- the pack loops' state ----

  /** The shared region (shared mode) or the fragments so far (fragment mode), the offset, the fetcher. */
  datatype PackAcc = PackAcc(view: Option<seq<bool>>, frags: seq<Fragment>, offset: nat, feed: Feed)

  /** The options a child is packed with: fragment-mode children always start at offset 0. */
  function ChildOpts(acc: PackAcc, base: nat, littleEndian: Option<bool>, stack: Ctx): PackOpts
  {
    PackOpts(acc.view, if acc.view.Some? then base + acc.offset else 0, littleEndian, stack)
  }

  /** A child's result: the region it updated, or its fragment stored; the offset advances by its size. */
  function Absorb(acc: PackAcc, p: Packed, feed: Feed): PackAcc
  {
    if acc.view.Some? then PackAcc(Some(p.buffer), acc.frags, acc.offset + p.size, feed)
    else PackAcc(None, acc.frags + [Fragment(p.buffer, p.size)], acc.offset + p.size, feed)
  }

  // ---- concat_buffers ----

  /**
   * One fragment packed by the byte array `concat_buffers` builds: `size / 8` `Uint(8)` fields fed from
   * the fragment's bytes, then a `Bits(size % 8)` field for the remainder, at offset `off` of `out`.
   */
  function PlaceBytes(out: seq<bool>, off: nat, bytes: seq<Byte>, j: nat, size: nat): (r: Result<seq<bool>>)
    ensures r.Ok? ==> |r.value| == |out|
    decreases size / 8 - j
  {
    if j < size / 8 then
      if j >= |bytes| then Err(InsufficientData)
      else if off + 8 * j + 8 > |out| then Err(OutOfRange)
      else PlaceBytes(Overwrite(out, off + 8 * j, Serialize(UintKind, bytes[j], 8, false)), off, bytes, j + 1, size)
    else if size % 8 != 0 then
      if j >= |bytes| then Err(InsufficientData)
      else if off + 8 * j + size % 8 > |out| then Err(OutOfRange)
      else Ok(Overwrite(out, off + 8 * j, Serialize(BitsKind, bytes[j], size % 8, false)))
    else Ok(out)
  }

  function ConcatFrom(frags: seq<Fragment>, k: nat, out: seq<bool>, off: nat): (r: Result<seq<bool>>)
    requires k <= |frags|
    ensures r.Ok? ==> |r.value| == |out|
    decreases |frags| - k
  {
    if k == |frags| then Ok(out)
    else match PlaceBytes(out, off, BytesOf(frags[k].buffer), 0, frags[k].size)
      case Err(e) => Err(e)
      case Ok(out') => ConcatFrom(frags, k + 1, out', off + frags[k].size)
  }

  /** `concat_buffers`: a fresh region of `ceil(total / 8)` bytes with each fragment at the running offset. */
  function Concat(frags: seq<Fragment>, total: nat): (r: Result<seq<bool>>)
    ensures r.Ok? ==> |r.value| == 8 * CeilBytes(total)
  {
    ConcatFrom(frags, 0, Zeros(8 * CeilBytes(total)), 0)
  }

  /** The end of an aggregate's pack: the updated shared region, or the concatenated fragments. */
  function Finish(acc: PackAcc): (r: Result<(seq<bool>, nat)>)
    ensures r.Ok? ==> r.value.1 == acc.offset
    ensures acc.view.Some? ==> r == Ok((acc.view.value, acc.offset))
    ensures acc.view.None? && r.Ok? ==> |r.value.0| == 8 * CeilBytes(acc.offset)
  {
    if acc.view.Some? then Ok((acc.view.value, acc.offset))
    else match Concat(acc.frags, acc.offset)
      case Err(e) => Err(e)
      case Ok(buffer) => Ok((buffer, acc.offset))
  }

  // ---- leaves ----

  /** The primitive field's `pack`. */
  function PackPrimitive(s: Struct, source: Feed, o: PackOpts): (r: Result<Packed>)
    requires s.Primitive?
    ensures r.Ok? && o.view.Some? ==> Keeps(o.view.value, r.value.buffer, 8 * (o.offset / 8))
    ensures r.Ok? && o.view.None? ==> |r.value.buffer| == 8 * CeilBytes(r.value.size)
  {
    var view := if o.view.Some? then o.view.value else Zeros(8 * CeilBytes(s.width));
    match FetchAndEncode(source, s.tc.encode, o.context)
    case Err(e) => Err(e)
    case Ok((v, feed)) =>
      if !v.Number? then Err(WrongShape)
      else if o.offset + s.width > |view| then Err(OutOfRange)
      else
        var bits := Serialize(s.kind, v.n, s.width, IsLittle(Endian(o.littleEndian, s.tc.littleEndian)));
        Ok(Packed(Overwrite(view, o.offset, bits), s.width, feed))
  }

  /** The primitive field's `parse`. */
  function ParsePrimitive(s: Struct, view: seq<bool>, o: ParseOpts, sink: Sink): (r: Result<Parsed>)
    requires s.Primitive?
  {
    if o.offset + s.width > |view| then Err(OutOfRange)
    else
      var raw := Number(Deserialize(s.kind, view[o.offset..o.offset + s.width], IsLittle(Endian(o.littleEndian, s.tc.littleEndian))));
      match DecodeAndDeliver([raw], s.tc.decode, o.context, sink)
      case Err(e) => Err(e)
      case Ok((data, context)) => Ok(Parsed(data, s.width, context))
  }

  /** `ToInt32`: the JavaScript conversion applied by the bitwise operators. */
  function ToInt32(x: int): int
  {
    var m := x % Pow2(32);
    if m >= Pow2(31) then m - Pow2(32) else m
  }

  /** `fill >>= 8`. */
  function ShiftRight8(x: int): int
  {
    ToInt32(x) / 256
  }

  /**
   * Padding's fill loop from byte `i` on: whole bytes take the fill modulo 256, the fill shifting right
   * by 8 after each; a partial last byte takes `fill & (2 ** remainder - 1)`. Every write is `setUint8`
   * at byte `base + i`, a `RangeError` past the region's end.
   */
  function FillFrom(region: seq<bool>, base: nat, i: nat, size: nat, fill: int): (r: Result<seq<bool>>)
    ensures r.Ok? ==> Keeps(region, r.value, 8 * base)
    decreases size / 8 - i
  {
    if i < size / 8 then
      if base + i >= |region| / 8 then Err(OutOfRange)
      else FillFrom(SetByte(region, base + i, fill % 256), base, i + 1, size, ShiftRight8(fill))
    else if size % 8 != 0 then
      if base + i >= |region| / 8 then Err(OutOfRange)
      else Ok(SetByte(region, base + i, ToInt32(fill) % Pow2(size % 8)))
    else Ok(region)
  }

  /** Padding's `pack`: the byte position is the truncated byte offset, as `setUint8` takes it. */
  function PackPadding(s: Struct, source: Feed, o: PackOpts): (r: Result<Packed>)
    requires s.Padding?
    ensures r.Ok? && o.view.Some? ==> Keeps(o.view.value, r.value.buffer, 8 * (o.offset / 8))
    ensures r.Ok? && o.view.None? ==> |r.value.buffer| == 8 * CeilBytes(r.value.size)
  {
    match Resolve(s.bits, o.context, InBits)
    case Err(e) => Err(e)
    case Ok(size) =>
      var view := if o.view.Some? then o.view.value else Zeros(8 * CeilBytes(size));
      if s.fill.None? then Ok(Packed(view, size, source))
      else match FillFrom(view, o.offset / 8, 0, size, s.fill.value(o.context))
        case Err(e) => Err(e)
        case Ok(view') => Ok(Packed(view', size, source))
  }

  /** Padding's `parse`: the region is never read. */
  function ParsePadding(s: Struct, o: ParseOpts, sink: Sink): (r: Result<Parsed>)
    requires s.Padding?
  {
    match Resolve(s.bits, o.context, InBits)
    case Err(e) => Err(e)
    case Ok(size) =>
      if s.constant.None? then Ok(Parsed(Null, size, o.context))
      else
        var data := s.constant.value(o.context);
        match Deliver(sink, o.context, data)
        case Err(e) => Err(e)
        case Ok(context) => Ok(Parsed(data, size, context))
  }

  /** The byte span's copy: byte `i` of `bytes` becomes byte `base + i` of the region; nothing to copy never fails. */
  function CopyBytes(region: seq<bool>, base: nat, bytes: seq<Byte>): (r: Result<seq<bool>>)
    ensures r.Ok? <==> |bytes| == 0 || base + |bytes| <= |region| / 8
    ensures r.Ok? ==> Keeps(region, r.value, 8 * base)
  {
    if |bytes| == 0 then Ok(region)
    else if base + |bytes| <= |region| / 8 then Ok(Overwrite(region, 8 * base, RegionOf(bytes)))
    else Err(OutOfRange)
  }

  /** `Byte_Buffer`'s `pack`. */
  function PackByteSpan(s: Struct, source: Feed, o: PackOpts): (r: Result<Packed>)
    requires s.ByteSpan?
    ensures r.Ok? && o.view.Some? ==> Keeps(o.view.value, r.value.buffer, 8 * (o.offset / 8))
    ensures r.Ok? && o.view.None? ==> |r.value.buffer| == 8 * CeilBytes(r.value.size)
  {
    match Resolve(s.length, o.context, InBytes)
    case Err(e) => Err(e)
    case Ok(size) =>
      match FetchAndEncode(source, s.tc.encode, o.context)
      case Err(e) => Err(e)
      case Ok((v, feed)) =>
        if !v.Buffer? || size != 8 * |v.bytes| then Err(LengthMismatch(size))
        else if o.view.None? then Ok(Packed(RegionOf(v.bytes), size, feed))
        else match CopyBytes(o.view.value, o.offset / 8, v.bytes)
          case Err(e) => Err(e)
          case Ok(view') => Ok(Packed(view', size, feed))
  }

  /** `ArrayBuffer.prototype.slice(begin, end)` on whole bytes: both ends clamped to the buffer. */
  function SliceBytes(region: seq<bool>, begin: nat, end: nat): (r: seq<Byte>)
  {
    var n := |region| / 8;
    var first := if begin < n then begin else n;
    var last := if end < n then end else n;
    if first < last then BytesOf(region)[first..last] else []
  }

  /** `Byte_Buffer`'s `parse`. */
  function ParseByteSpan(s: Struct, view: seq<bool>, o: ParseOpts, sink: Sink): (r: Result<Parsed>)
    requires s.ByteSpan?
  {
    match Resolve(s.length, o.context, InBytes)
    case Err(e) => Err(e)
    case Ok(size) =>
      var bytes := SliceBytes(view, o.offset / 8, (o.offset + size) / 8);
      match DecodeAndDeliver([Buffer(bytes)], s.tc.decode, o.context, sink)
      case Err(e) => Err(e)
      case Ok((data, context)) => Ok(Parsed(data, size, context))
  }

  // ---- pack ----

  /** `pack`. */
  function PackSpec(s: Struct, source: Feed, o: PackOpts): (r: Result<Packed>)
    ensures r.Ok? && o.view.Some? ==> Keeps(o.view.value, r.value.buffer, 8 * (o.offset / 8))
    ensures r.Ok? && o.view.None? ==> |r.value.buffer| == 8 * CeilBytes(r.value.size)
    decreases s, 5, 0
  {
    match s
    case Primitive(_, _, _) => PackPrimitive(s, source, o)
    case Padding(_, _, _) => PackPadding(s, source, o)
    case ByteSpan(_, _) => PackByteSpan(s, source, o)
    case NamedAggregate(_, _) => PackNamed(s, source, o)
    case PositionalAggregate(_, _) => PackPositional(s, source, o)
    case Repeat(_, _, _) => PackPositional(s, source, o)
    case Branch(_, _, _) => PackBranch(s, source, o)
    case Embed(_) => PackEmbed(s, source, o)
    case NotStruct => Err(NotAStruct)
  }

  /** `Binary_Map`'s `pack` without an `encoded` argument. */
  function PackNamed(s: Struct, source: Feed, o: PackOpts): (r: Result<Packed>)
    requires s.NamedAggregate?
    ensures r.Ok? && o.view.Some? ==> Keeps(o.view.value, r.value.buffer, 8 * (o.offset / 8))
    ensures r.Ok? && o.view.None? ==> |r.value.buffer| == 8 * CeilBytes(r.value.size)
    decreases s, 4, 0
  {
    match FetchAndEncode(source, s.tc.encode, o.context)
    case Err(e) => Err(e)
    case Ok((encoded, feed)) =>
      match PackFieldsBody(s, encoded, SetContext(encoded, o.context), o.view, o.offset, Endian(o.littleEndian, s.tc.littleEndian))
      case Err(e) => Err(e)
      case Ok((buffer, size)) => Ok(Packed(buffer, size, feed))
  }

  /** `Binary_Map`'s `pack` once `encoded` is known: the loop over the fields, then the result. */
  function PackFieldsBody(s: Struct, encoded: Doc, stack: Ctx, view: Option<seq<bool>>, base: nat, littleEndian: Option<bool>)
    : (r: Result<(seq<bool>, nat)>)
    requires s.NamedAggregate?
    ensures r.Ok? && view.Some? ==> Keeps(view.value, r.value.0, 8 * (base / 8))
    ensures r.Ok? && view.None? ==> |r.value.0| == 8 * CeilBytes(r.value.1)
    decreases s, 3, 0
  {
    match PackFields(s, 0, encoded, stack, base, littleEndian, PackAcc(view, [], 0, Given(Null)))
    case Err(e) => Err(e)
    case Ok(acc) => Finish(acc)
  }

  /** The field loop from field `i` on; each field fetches its key from `encoded`. */
  function PackFields(s: Struct, i: nat, encoded: Doc, stack: Ctx, base: nat, littleEndian: Option<bool>, acc: PackAcc)
    : (r: Result<PackAcc>)
    requires s.NamedAggregate?
    ensures r.Ok? ==> r.value.offset >= acc.offset && r.value.view.Some? == acc.view.Some?
    ensures r.Ok? && acc.view.Some? ==> Keeps(acc.view.value, r.value.view.value, 8 * (base / 8))
    decreases s, 1, |s.fields| - i
  {
    if i >= |s.fields| then Ok(acc)
    else
      var (key, child) := s.fields[i];
      match PackSpec(child, Keyed(encoded, key), ChildOpts(acc, base, littleEndian, stack))
      case Err(e) => Err(e)
      case Ok(p) => PackFields(s, i + 1, encoded, stack, base, littleEndian, Absorb(acc, p, acc.feed))
  }

  /** `Binary_Array`'s `pack` without a `fetcher` argument: one element of the array per child. */
  function PackPositional(s: Struct, source: Feed, o: PackOpts): (r: Result<Packed>)
    requires s.IsArray()
    ensures r.Ok? && o.view.Some? ==> Keeps(o.view.value, r.value.buffer, 8 * (o.offset / 8))
    ensures r.Ok? && o.view.None? ==> |r.value.buffer| == 8 * CeilBytes(r.value.size)
    decreases s, 4, 0
  {
    match FetchAndEncode(source, s.tc.encode, o.context)
    case Err(e) => Err(e)
    case Ok((encoded, feed)) =>
      if !encoded.List? then Err(WrongShape)
      else
        var littleEndian := Endian(o.littleEndian, s.tc.littleEndian);
        match PackArrayBody(s, Cursor(encoded.items, 0), SetContext(encoded, o.context), o.context, o.view, o.offset, littleEndian)
        case Err(e) => Err(e)
        case Ok((buffer, size, _)) => Ok(Packed(buffer, size, feed))
  }

  /** `Binary_Array`'s `pack` once the fetcher is known: `__pack_loop`, then the result. */
  function PackArrayBody(s: Struct, fetcher: Feed, stack: Ctx, parent: Ctx, view: Option<seq<bool>>, base: nat, littleEndian: Option<bool>)
    : (r: Result<(seq<bool>, nat, Feed)>)
    requires s.IsArray()
    ensures r.Ok? && view.Some? ==> Keeps(view.value, r.value.0, 8 * (base / 8))
    ensures r.Ok? && view.None? ==> |r.value.0| == 8 * CeilBytes(r.value.1)
    decreases s, 3, 0
  {
    match PackLoop(s, stack, parent, base, littleEndian, PackAcc(view, [], 0, fetcher))
    case Err(e) => Err(e)
    case Ok(acc) =>
      match Finish(acc)
      case Err(e) => Err(e)
      case Ok((buffer, size)) => Ok((buffer, size, acc.feed))
  }

  /** `__pack_loop`: one pass for a positional aggregate, the policy's passes for a repeat. */
  function PackLoop(s: Struct, stack: Ctx, parent: Ctx, base: nat, littleEndian: Option<bool>, acc: PackAcc)
    : (r: Result<PackAcc>)
    requires s.IsArray()
    ensures r.Ok? ==> r.value.offset >= acc.offset && r.value.view.Some? == acc.view.Some?
    ensures r.Ok? && acc.view.Some? ==> Keeps(acc.view.value, r.value.view.value, 8 * (base / 8))
    decreases s, 2, 1
  {
    if s.PositionalAggregate? then PackPass(s, 0, stack, base, littleEndian, acc)
    else match s.policy
      case ByCount(count) =>
        (match Resolve(count, parent, InBytes)
         case Err(e) => Err(e)
         case Ok(n) => PackCount(s, CeilBytes(n), 0, stack, base, littleEndian, acc))
      case ByBytes(bytes) =>
        (match Resolve(bytes, parent, InBytes)
         case Err(e) => Err(e)
         case Ok(budget) =>
           match PackBudget(s, budget, stack, base, littleEndian, acc)
           case Err(e) => Err(e)
           case Ok(acc') => if acc'.offset > budget then Err(Overrun(budget)) else Ok(acc'))
      case NoPolicy => Err(NoRepeatPolicy)
  }

  /** Repeat by count: passes `k` to `passes`. */
  function PackCount(s: Struct, passes: nat, k: nat, stack: Ctx, base: nat, littleEndian: Option<bool>, acc: PackAcc)
    : (r: Result<PackAcc>)
    requires s.IsArray()
    ensures r.Ok? ==> r.value.offset >= acc.offset && r.value.view.Some? == acc.view.Some?
    ensures r.Ok? && acc.view.Some? ==> Keeps(acc.view.value, r.value.view.value, 8 * (base / 8))
    decreases s, 2, 0, passes - k
  {
    if k >= passes then Ok(acc)
    else match PackPass(s, 0, stack, base, littleEndian, acc)
      case Err(e) => Err(e)
      case Ok(acc') => PackCount(s, passes, k + 1, stack, base, littleEndian, acc')
  }

  /** The values a fetcher has yet to hand out: what is left of a list, none for a single value. */
  function FeedLeft(f: Feed): nat
  {
    if f.Cursor? && f.next <= |f.items| then |f.items| - f.next else 0
  }

  /**
   * Repeat by bytes: passes while the offset is below the budget (counted from where the loop began).
   * A pass of size 0 that took no value from the fetcher leaves the next pass exactly where it was, so
   * the source would repeat it forever; here that is `Diverges`. A pass of size 0 that took values
   * is followed by the next, which takes the values after them.
   */
  function PackBudget(s: Struct, budget: nat, stack: Ctx, base: nat, littleEndian: Option<bool>, acc: PackAcc)
    : (r: Result<PackAcc>)
    requires s.IsArray()
    ensures r.Ok? ==> r.value.offset >= acc.offset && r.value.view.Some? == acc.view.Some?
    ensures r.Ok? ==> r.value.offset >= budget
    ensures r.Ok? && acc.view.Some? ==> Keeps(acc.view.value, r.value.view.value, 8 * (base / 8))
    decreases s, 2, 0, if acc.offset < budget then budget - acc.offset else 0, FeedLeft(acc.feed)
  {
    if acc.offset >= budget then Ok(acc)
    else match PackPass(s, 0, stack, base, littleEndian, acc)
      case Err(e) => Err(e)
      case Ok(acc') =>
        if acc'.offset == acc.offset && FeedLeft(acc'.feed) >= FeedLeft(acc.feed) then Err(Diverges)
        else PackBudget(s, budget, stack, base, littleEndian, acc')
  }

  /** One pass of `__pack_loop` from item `i` on; every item pulls from the shared fetcher. */
  function PackPass(s: Struct, i: nat, stack: Ctx, base: nat, littleEndian: Option<bool>, acc: PackAcc)
    : (r: Result<PackAcc>)
    requires s.IsArray()
    ensures r.Ok? ==> r.value.offset >= acc.offset && r.value.view.Some? == acc.view.Some?
    ensures r.Ok? && acc.view.Some? ==> Keeps(acc.view.value, r.value.view.value, 8 * (base / 8))
    decreases s, 1, |s.items| - i
  {
    if i >= |s.items| then Ok(acc)
    else match PackSpec(s.items[i], acc.feed, ChildOpts(acc, base, littleEndian, stack))
      case Err(e) => Err(e)
      case Ok(p) => PackPass(s, i + 1, stack, base, littleEndian, Absorb(acc, p, p.feed))
  }

  /** `Branch`'s `pack`: the chosen Struct's `pack`, with the same source and options. */
  function PackBranch(s: Struct, source: Feed, o: PackOpts): (r: Result<Packed>)
    requires s.Branch?
    ensures r.Ok? && o.view.Some? ==> Keeps(o.view.value, r.value.buffer, 8 * (o.offset / 8))
    ensures r.Ok? && o.view.None? ==> |r.value.buffer| == 8 * CeilBytes(r.value.size)
    decreases s, 4, 0
  {
    match Choose(s, o.context)
    case Err(e) => Err(e)
    case Ok(chosen) => PackSpec(chosen, source, o)
  }

  /**
   * `Embed`'s `pack`. With a context and an aggregate inside, the aggregate packs the enclosing
   * document (the current one) with the grandparent as its context: a named aggregate reads its
   * fields from that document, a positional one pulls from the enclosing fetcher. Otherwise `pack`
   * passes straight through.
   */
  function PackEmbed(s: Struct, source: Feed, o: PackOpts): (r: Result<Packed>)
    requires s.Embed?
    ensures r.Ok? && o.view.Some? ==> Keeps(o.view.value, r.value.buffer, 8 * (o.offset / 8))
    ensures r.Ok? && o.view.None? ==> |r.value.buffer| == 8 * CeilBytes(r.value.size)
    decreases s, 4, 0
  {
    var inner := s.inner;
    if |o.context| > 0 && inner.NamedAggregate? then
      var littleEndian := Endian(o.littleEndian, inner.tc.littleEndian);
      match PackFieldsBody(inner, o.context[0], o.context, o.view, o.offset, littleEndian)
      case Err(e) => Err(e)
      case Ok((buffer, size)) => Ok(Packed(buffer, size, source))
    else if |o.context| > 0 && inner.IsArray() then
      var parent := o.context[1..];
      var encoded := if inner.tc.encode.Some? then inner.tc.encode.value(o.context[0], parent) else o.context[0];
      var stack := if inner.tc.encode.Some? then [encoded] else o.context;
      var littleEndian := Endian(o.littleEndian, inner.tc.littleEndian);
      match PackArrayBody(inner, source, stack, parent, o.view, o.offset, littleEndian)
      case Err(e) => Err(e)
      case Ok((buffer, size, feed)) => Ok(Packed(buffer, size, feed))
    else PackSpec(inner, source, o)
  }

  // ---- parse ----

  /** A parse's effect on its context: only the current document (the delivery target) can change. */
  predicate SameChain(before: Ctx, after: Ctx)
  {
    |after| == |before| && (|before| > 0 ==> after[1..] == before[1..])
  }

  /** The parse loops' state: the results stack (current results first) and the offset so far. */
  datatype ParseAcc = ParseAcc(stack: Ctx, offset: nat)

  /** `parse`; `sink` is the `deliver` callback the caller passed, aimed at the caller's results. */
  function ParseSpec(s: Struct, view: seq<bool>, o: ParseOpts, sink: Sink): (r: Result<Parsed>)
    ensures r.Ok? ==> SameChain(o.context, r.value.context)
    decreases s, 5, 0
  {
    match s
    case Primitive(_, _, _) => ParsePrimitive(s, view, o, sink)
    case Padding(_, _, _) => ParsePadding(s, o, sink)
    case ByteSpan(_, _) => ParseByteSpan(s, view, o, sink)
    case NamedAggregate(_, _) => ParseNamed(s, view, o, sink)
    case PositionalAggregate(_, _) => ParsePositional(s, view, o, sink)
    case Repeat(_, _, _) => ParsePositional(s, view, o, sink)
    case Branch(_, _, _) => ParseBranch(s, view, o, sink)
    case Embed(_) => ParseEmbed(s, view, o, sink)
    case NotStruct => Err(NotAStruct)
  }

  /**
   * `Binary_Map`'s `parse` without a `results` argument: a fresh record on top of the context collects
   * the fields; the decoder sees it with its parent chain still attached.
   */
  function ParseNamed(s: Struct, view: seq<bool>, o: ParseOpts, sink: Sink): (r: Result<Parsed>)
    requires s.NamedAggregate?
    ensures r.Ok? ==> SameChain(o.context, r.value.context)
    decreases s, 4, 0
  {
    var littleEndian := Endian(o.littleEndian, s.tc.littleEndian);
    match ParseFields(s, 0, view, o.offset, littleEndian, ParseAcc(SetContext(Record(map[]), o.context), 0))
    case Err(e) => Err(e)
    case Ok(acc) =>
      match DecodeAndDeliver(acc.stack, s.tc.decode, o.context, sink)
      case Err(e) => Err(e)
      case Ok((data, context)) => Ok(Parsed(data, acc.offset, context))
  }

  /** The field loop from field `i` on; each field sets its key on the current results. */
  function ParseFields(s: Struct, i: nat, view: seq<bool>, base: nat, littleEndian: Option<bool>, acc: ParseAcc)
    : (r: Result<ParseAcc>)
    requires s.NamedAggregate?
    ensures r.Ok? ==> SameChain(acc.stack, r.value.stack) && r.value.offset >= acc.offset
    decreases s, 1, |s.fields| - i
  {
    if i >= |s.fields| then Ok(acc)
    else
      var (key, child) := s.fields[i];
      match ParseSpec(child, view, ParseOpts(base + acc.offset, littleEndian, acc.stack), SetKey(key))
      case Err(e) => Err(e)
      case Ok(p) => ParseFields(s, i + 1, view, base, littleEndian, ParseAcc(p.context, acc.offset + p.size))
  }

  /** An item that parses moves the pass on to the next item, at the offset after it. */
  lemma {:induction false} ParsePassNext(s: Struct, i: nat, view: seq<bool>, base: nat, littleEndian: Option<bool>, acc: ParseAcc, p: Parsed)
    requires s.IsArray() && i < |s.items|
    requires ParseSpec(s.items[i], view, ParseOpts(base + acc.offset, littleEndian, acc.stack), Push) == Ok(p)
    ensures ParsePass(s, i, view, base, littleEndian, acc) == ParsePass(s, i + 1, view, base, littleEndian, ParseAcc(p.context, acc.offset + p.size))
  {
  }

  /** A field that parses moves the field loop on to the next field, at the offset after it. */
  lemma {:induction false} ParseFieldsNext(s: Struct, i: nat, view: seq<bool>, base: nat, littleEndian: Option<bool>, acc: ParseAcc, p: Parsed)
    requires s.NamedAggregate? && i < |s.fields|
    requires ParseSpec(s.fields[i].1, view, ParseOpts(base + acc.offset, littleEndian, acc.stack), SetKey(s.fields[i].0)) == Ok(p)
    ensures ParseFields(s, i, view, base, littleEndian, acc) == ParseFields(s, i + 1, view, base, littleEndian, ParseAcc(p.context, acc.offset + p.size))
  {
  }

  /**
   * `Binary_Array`'s `parse` without a `results` argument: a fresh list on top of the context collects
   * the items; the decoder sees it with the parent chain removed.
   */
  function ParsePositional(s: Struct, view: seq<bool>, o: ParseOpts, sink: Sink): (r: Result<Parsed>)
    requires s.IsArray()
    ensures r.Ok? ==> SameChain(o.context, r.value.context)
    decreases s, 4, 0
  {
    var littleEndian := Endian(o.littleEndian, s.tc.littleEndian);
    match ParseLoop(s, view, o.context, o.offset, littleEndian, ParseAcc(SetContext(List([]), o.context), 0))
    case Err(e) => Err(e)
    case Ok(acc) =>
      match DecodeAndDeliver(RemoveContext(acc.stack, true), s.tc.decode, o.context, sink)
      case Err(e) => Err(e)
      case Ok((data, context)) => Ok(Parsed(data, acc.offset, context))
  }

  /** `__parse_loop`: one pass for a positional aggregate, the policy's passes for a repeat. */
  function ParseLoop(s: Struct, view: seq<bool>, parent: Ctx, base: nat, littleEndian: Option<bool>, acc: ParseAcc)
    : (r: Result<ParseAcc>)
    requires s.IsArray()
    ensures r.Ok? ==> SameChain(acc.stack, r.value.stack) && r.value.offset >= acc.offset
    decreases s, 2, 1
  {
    if s.PositionalAggregate? then ParsePass(s, 0, view, base, littleEndian, acc)
    else match s.policy
      case ByCount(count) =>
        (match Resolve(count, parent, InBytes)
         case Err(e) => Err(e)
         case Ok(n) => ParseCount(s, CeilBytes(n), 0, view, base, littleEndian, acc))
      case ByBytes(bytes) =>
        (match Resolve(bytes, parent, InBytes)
         case Err(e) => Err(e)
         case Ok(budget) =>
           match ParseBudget(s, budget, view, base, littleEndian, acc)
           case Err(e) => Err(e)
           case Ok(acc') => if acc'.offset > budget then Err(Overrun(budget)) else Ok(acc'))
      case NoPolicy => Err(NoRepeatPolicy)
  }

  /** Repeat by count: passes `k` to `passes`. */
  function ParseCount(s: Struct, passes: nat, k: nat, view: seq<bool>, base: nat, littleEndian: Option<bool>, acc: ParseAcc)
    : (r: Result<ParseAcc>)
    requires s.IsArray()
    ensures r.Ok? ==> SameChain(acc.stack, r.value.stack) && r.value.offset >= acc.offset
    decreases s, 2, 0, passes - k
  {
    if k >= passes then Ok(acc)
    else match ParsePass(s, 0, view, base, littleEndian, acc)
      case Err(e) => Err(e)
      case Ok(acc') => ParseCount(s, passes, k + 1, view, base, littleEndian, acc')
  }

  /** Repeat by bytes: passes while the offset is below the budget; a pass of size 0 is `Diverges`. */
  function ParseBudget(s: Struct, budget: nat, view: seq<bool>, base: nat, littleEndian: Option<bool>, acc: ParseAcc)
    : (r: Result<ParseAcc>)
    requires s.IsArray()
    ensures r.Ok? ==> SameChain(acc.stack, r.value.stack) && r.value.offset >= acc.offset
    ensures r.Ok? ==> r.value.offset >= budget
    decreases s, 2, 0, if acc.offset < budget then budget - acc.offset else 0
  {
    if acc.offset >= budget then Ok(acc)
    else match ParsePass(s, 0, view, base, littleEndian, acc)
      case Err(e) => Err(e)
      case Ok(acc') =>
        if acc'.offset == acc.offset then Err(Diverges)
        else ParseBudget(s, budget, view, base, littleEndian, acc')
  }

  /** One pass of `__parse_loop` from item `i` on; each item pushes onto the current results. */
  function ParsePass(s: Struct, i: nat, view: seq<bool>, base: nat, littleEndian: Option<bool>, acc: ParseAcc)
    : (r: Result<ParseAcc>)
    requires s.IsArray()
    ensures r.Ok? ==> SameChain(acc.stack, r.value.stack) && r.value.offset >= acc.offset
    decreases s, 1, |s.items| - i
  {
    if i >= |s.items| then Ok(acc)
    else match ParseSpec(s.items[i], view, ParseOpts(base + acc.offset, littleEndian, acc.stack), Push)
      case Err(e) => Err(e)
      case Ok(p) => ParsePass(s, i + 1, view, base, littleEndian, ParseAcc(p.context, acc.offset + p.size))
  }

  /** `Branch`'s `parse`: the chosen Struct's `parse`, with the same region, options and callback. */
  function ParseBranch(s: Struct, view: seq<bool>, o: ParseOpts, sink: Sink): (r: Result<Parsed>)
    requires s.Branch?
    ensures r.Ok? ==> SameChain(o.context, r.value.context)
    decreases s, 4, 0
  {
    match Choose(s, o.context)
    case Err(e) => Err(e)
    case Ok(chosen) => ParseSpec(chosen, view, o, sink)
  }

  /**
   * `Embed`'s `parse`. With a context and an aggregate inside, the aggregate's children deliver into
   * the enclosing results (the current document), its decoder sees that document with its whole
   * chain and the grandparent as context, and its result is delivered nowhere. Otherwise `parse`
   * passes straight through.
   */
  function ParseEmbed(s: Struct, view: seq<bool>, o: ParseOpts, sink: Sink): (r: Result<Parsed>)
    requires s.Embed?
    ensures r.Ok? ==> SameChain(o.context, r.value.context)
    decreases s, 4, 0
  {
    var inner := s.inner;
    if |o.context| > 0 && inner.NamedAggregate? then
      var littleEndian := Endian(o.littleEndian, inner.tc.littleEndian);
      match ParseFields(inner, 0, view, o.offset, littleEndian, ParseAcc(o.context, 0))
      case Err(e) => Err(e)
      case Ok(acc) =>
        match DecodeAndDeliver(acc.stack, inner.tc.decode, o.context[1..], Drop)
        case Err(e) => Err(e)
        case Ok((data, _)) => Ok(Parsed(data, acc.offset, acc.stack))
    else if |o.context| > 0 && inner.IsArray() then
      var littleEndian := Endian(o.littleEndian, inner.tc.littleEndian);
      match ParseLoop(inner, view, o.context[1..], o.offset, littleEndian, ParseAcc(o.context, 0))
      case Err(e) => Err(e)
      case Ok(acc) =>
        match DecodeAndDeliver(RemoveContext(acc.stack, false), inner.tc.decode, o.context[1..], Drop)
        case Err(e) => Err(e)
        case Ok((data, _)) => Ok(Parsed(data, acc.offset, acc.stack))
    else ParseSpec(inner, view, o, sink)
  }
}
