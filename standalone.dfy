/**
 * Aggregates packed without a shared region, the default when `pack` is given no `data_view`: every
 * plain child packs into a fresh zeroed buffer of its own at offset 0, the aggregate stores each
 * child's buffer and size as a fragment, and `concat_buffers` lays the fragments end to end. Parsing
 * the finished buffer from offset 0 gives back what was packed.
 */
module Standalone {
  import opened Wrappers
  import opened Codec
  import opened Document
  import opened Structs
  import opened Transcode
  import opened Layouts
  import opened Positional
  import opened Concatenation

  /** A fragment a plain child packed on its own: its buffer has a byte per started byte and begins with the number's bits. */
  predicate FragmentOf(f: Fragment, c: Struct, n: int, littleEndian: Option<bool>)
    requires c.Primitive?
  {
    && f.size == c.width && |f.buffer| == 8 * CeilBytes(f.size)
    && f.size <= |f.buffer| && f.buffer[..f.size] == Encoded(c, n, littleEndian)
  }

  /** A plain primitive packing a number it fetches into a fresh buffer of its own. */
  lemma {:induction false} PrimitiveAlone(c: Struct, source: Feed, o: PackOpts)
    requires Plain(c) && o.view.None? && o.offset == 0
    requires Fetch(source).Ok? && Fetch(source).value.0.Number?
    ensures var r := PackSpec(c, source, o);
      && r.Ok? && r.value.feed == Fetch(source).value.1
      && FragmentOf(Fragment(r.value.buffer, r.value.size), c, Fetch(source).value.0.n, o.littleEndian)
  {
    var zeros := Zeros(8 * CeilBytes(c.width));
    CeilBound(c.width, 8 * CeilBytes(c.width));
    ReadBack(zeros, 0, Encoded(c, Fetch(source).value.0.n, o.littleEndian));
  }

  /** A buffer of a byte per started byte of `size` has that many whole bytes. */
  lemma {:induction false} CeilWhole(size: nat)
    ensures CeilBytes(size) <= (8 * CeilBytes(size)) / 8
  {
  }

  // ---- Binary_Map ----

  /** The fragments of the first fields, each holding its field's number from `doc`. */
  predicate FieldFrags(frags: seq<Fragment>, fields: seq<(string, Struct)>, doc: Doc, littleEndian: Option<bool>)
    requires PlainFields(fields) && Fits(fields, doc)
  {
    |frags| <= |fields| && forall k | 0 <= k < |frags| :: FragmentOf(frags[k], fields[k].1, doc.fields[fields[k].0].n, littleEndian)
  }

  /**
   * The standalone field loop over plain fields packing a fitting record: it succeeds with one
   * fragment per field, each holding its field's number, and an offset that is the fields' total width.
   */
  lemma {:induction false} PackFieldsAlone(s: Struct, i: nat, encoded: Doc, stack: Ctx, base: nat, littleEndian: Option<bool>, acc: PackAcc)
    requires s.NamedAggregate? && PlainFields(s.fields) && Fits(s.fields, encoded) && i <= |s.fields|
    requires acc.view.None? && |acc.frags| == i && FieldFrags(acc.frags, s.fields, encoded, littleEndian)
    requires acc.offset == FieldStart(s.fields, i)
    ensures var r := PackFields(s, i, encoded, stack, base, littleEndian, acc);
      && r.Ok? && r.value.view.None? && |r.value.frags| == |s.fields| && FieldFrags(r.value.frags, s.fields, encoded, littleEndian)
      && r.value.offset == FieldStart(s.fields, |s.fields|)
    decreases |s.fields| - i
  {
    if i < |s.fields| {
      var next := FieldAlone(s, i, encoded, stack, base, littleEndian, acc);
      PackFieldsAlone(s, i + 1, encoded, stack, base, littleEndian, next);
    }
  }

  /** Field `i` of the standalone loop adds its fragment and moves the loop on to the next field. */
  lemma {:induction false} FieldAlone(s: Struct, i: nat, encoded: Doc, stack: Ctx, base: nat, littleEndian: Option<bool>, acc: PackAcc)
    returns (next: PackAcc)
    requires s.NamedAggregate? && PlainFields(s.fields) && Fits(s.fields, encoded) && i < |s.fields|
    requires acc.view.None? && |acc.frags| == i && FieldFrags(acc.frags, s.fields, encoded, littleEndian)
    requires acc.offset == FieldStart(s.fields, i)
    ensures next.view.None? && |next.frags| == i + 1 && FieldFrags(next.frags, s.fields, encoded, littleEndian)
    ensures next.offset == FieldStart(s.fields, i + 1)
    ensures PackFields(s, i, encoded, stack, base, littleEndian, acc) == PackFields(s, i + 1, encoded, stack, base, littleEndian, next)
  {
    var (key, c) := s.fields[i];
    var o := ChildOpts(acc, base, littleEndian, stack);
    assert Plain(c) && key in encoded.fields && encoded.fields[key].Number?;
    PrimitiveAlone(c, Keyed(encoded, key), o);
    var p := PackSpec(c, Keyed(encoded, key), o).value;
    next := Absorb(acc, p, acc.feed);
    PackFieldsNext(s, i, encoded, stack, base, littleEndian, acc, p);
    FieldFragsSnoc(acc.frags, Fragment(p.buffer, p.size), s.fields, encoded, littleEndian);
  }

  /** A field that packs moves the field loop on to the next field, with its result stored. */
  lemma {:induction false} PackFieldsNext(s: Struct, i: nat, encoded: Doc, stack: Ctx, base: nat, littleEndian: Option<bool>, acc: PackAcc, p: Packed)
    requires s.NamedAggregate? && i < |s.fields|
    requires PackSpec(s.fields[i].1, Keyed(encoded, s.fields[i].0), ChildOpts(acc, base, littleEndian, stack)) == Ok(p)
    ensures PackFields(s, i, encoded, stack, base, littleEndian, acc)
      == PackFields(s, i + 1, encoded, stack, base, littleEndian, Absorb(acc, p, acc.feed))
  {
  }

  /** The fragments of the first fields, then that of the next field. */
  lemma {:induction false} FieldFragsSnoc(frags: seq<Fragment>, f: Fragment, fields: seq<(string, Struct)>, doc: Doc, littleEndian: Option<bool>)
    requires PlainFields(fields) && Fits(fields, doc) && FieldFrags(frags, fields, doc, littleEndian) && |frags| < |fields|
    requires FragmentOf(f, fields[|frags|].1, doc.fields[fields[|frags|].0].n, littleEndian)
    ensures FieldFrags(frags + [f], fields, doc, littleEndian)
  {
    var longer := frags + [f];
    forall k | 0 <= k < |longer|
      ensures FragmentOf(longer[k], fields[k].1, doc.fields[fields[k].0].n, littleEndian)
    {
      if k < |frags| {
        assert longer[k] == frags[k];
      }
    }
  }

  /** One fragment per field, each as wide as its field: fragment `k` starts where field `k` does. */
  lemma {:induction false} FragStartFields(frags: seq<Fragment>, fields: seq<(string, Struct)>, doc: Doc, littleEndian: Option<bool>, k: nat)
    requires PlainFields(fields) && Fits(fields, doc) && FieldFrags(frags, fields, doc, littleEndian) && k <= |frags|
    ensures FragStart(frags, k) == FieldStart(fields, k)
  {
    if k > 0 {
      FragStartFields(frags, fields, doc, littleEndian, k - 1);
      assert FragmentOf(frags[k - 1], fields[k - 1].1, doc.fields[fields[k - 1].0].n, littleEndian);
    }
  }

  /** The fragments of every field are collected: well framed, adding up to the loop's offset. */
  lemma {:induction false} FieldFragsCollected(acc: PackAcc, fields: seq<(string, Struct)>, doc: Doc, littleEndian: Option<bool>)
    requires PlainFields(fields) && Fits(fields, doc) && FieldFrags(acc.frags, fields, doc, littleEndian)
    requires acc.view.None? && |acc.frags| == |fields| && acc.offset == FieldStart(fields, |fields|)
    ensures Collected(acc)
  {
    forall k | 0 <= k < |acc.frags|
      ensures CeilBytes(acc.frags[k].size) <= |acc.frags[k].buffer| / 8
    {
      assert FragmentOf(acc.frags[k], fields[k].1, doc.fields[fields[k].0].n, littleEndian);
      CeilWhole(acc.frags[k].size);
    }
    FragStartFields(acc.frags, fields, doc, littleEndian, |fields|);
  }

  /**
   * `Binary_Map` over plain fields packing a fitting record with no shared region: the result has
   * the fields' total width as its size and a byte per started byte, and parsing it from offset 0 in
   * the same byte order gives the record back.
   */
  lemma {:induction false} NamedRoundTripAlone(s: Struct, encoded: Doc, littleEndian: Option<bool>, context: Ctx)
    requires s.NamedAggregate? && PlainFields(s.fields) && s.tc.encode.None? && s.tc.decode.None?
    requires Fits(s.fields, encoded)
    ensures var p := PackSpec(s, Given(encoded), PackOpts(None, 0, littleEndian, context));
      && p.Ok? && p.value.size == FieldStart(s.fields, |s.fields|) && |p.value.buffer| == 8 * CeilBytes(p.value.size)
      && ParseSpec(s, p.value.buffer, ParseOpts(0, littleEndian, context), Drop) == Ok(Parsed(encoded, p.value.size, context))
  {
    var le := Endian(littleEndian, s.tc.littleEndian);
    var stack := SetContext(encoded, context);
    var start := PackAcc(None, [], 0, Given(Null));
    PackFieldsAlone(s, 0, encoded, stack, 0, le, start);
    var acc := PackFields(s, 0, encoded, stack, 0, le, start).value;
    FieldFragsCollected(acc, s.fields, encoded, le);
    FinishCollected(acc);
    var buffer := Finish(acc).value.0;
    PackIsNamed(s, Given(encoded), PackOpts(None, 0, littleEndian, context));
    assert FetchAndEncode(Given(encoded), s.tc.encode, context) == Ok((encoded, Given(encoded)));
    assert PackSpec(s, Given(encoded), PackOpts(None, 0, littleEndian, context)) == Ok(Packed(buffer, acc.offset, Given(encoded)));
    forall j | 0 <= j < |s.fields|
      ensures FieldHolds(s.fields, j, buffer, 0, le, encoded.fields)
    {
      assert FragmentOf(acc.frags[j], s.fields[j].1, encoded.fields[s.fields[j].0].n, le);
      assert FragHolds(buffer, acc.frags, j);
      FragStartFields(acc.frags, s.fields, encoded, le, j);
    }
    NamedParse(s, buffer, 0, littleEndian, context);
    ReadFieldsAll(s.fields, buffer, 0, le, encoded);
  }

  /**
   * `Binary_Map` over plain fields packing any record of numbers with no shared region: it succeeds
   * exactly when every declared key is present (keys it does not declare are ignored), and otherwise
   * throws `MissingField` for a key the record lacks.
   */
  lemma {:induction false} NamedPackKeysAlone(s: Struct, encoded: Doc, littleEndian: Option<bool>, context: Ctx)
    requires s.NamedAggregate? && PlainFields(s.fields) && s.tc.encode.None?
    requires encoded.Record? && forall j | 0 <= j < |s.fields| && s.fields[j].0 in encoded.fields :: encoded.fields[s.fields[j].0].Number?
    ensures var p := PackSpec(s, Given(encoded), PackOpts(None, 0, littleEndian, context));
      && (p.Ok? <==> forall j | 0 <= j < |s.fields| :: s.fields[j].0 in encoded.fields)
      && (p.Err? ==> p.error.MissingField? && p.error.key !in encoded.fields)
  {
    var le := Endian(littleEndian, s.tc.littleEndian);
    var stack := SetContext(encoded, context);
    var start := PackAcc(None, [], 0, Given(Null));
    assert FragStart([], 0) == 0;
    FieldKeysAlone(s, 0, encoded, stack, 0, le, start);
    var r := PackFields(s, 0, encoded, stack, 0, le, start);
    PackIsNamed(s, Given(encoded), PackOpts(None, 0, littleEndian, context));
    assert FetchAndEncode(Given(encoded), s.tc.encode, context) == Ok((encoded, Given(encoded)));
    if r.Ok? {
      FinishCollected(r.value);
    }
  }

  /** The standalone field loop from field `i` on: it fails exactly at a missing key, and otherwise leaves its fragments collected. */
  lemma {:induction false} FieldKeysAlone(s: Struct, i: nat, encoded: Doc, stack: Ctx, base: nat, littleEndian: Option<bool>, acc: PackAcc)
    requires s.NamedAggregate? && PlainFields(s.fields) && i <= |s.fields| && Collected(acc)
    requires encoded.Record? && forall j | 0 <= j < |s.fields| && s.fields[j].0 in encoded.fields :: encoded.fields[s.fields[j].0].Number?
    ensures var r := PackFields(s, i, encoded, stack, base, littleEndian, acc);
      && (r.Ok? <==> forall j | i <= j < |s.fields| :: s.fields[j].0 in encoded.fields)
      && (r.Err? ==> r.error.MissingField? && r.error.key !in encoded.fields)
      && (r.Ok? ==> Collected(r.value))
    decreases |s.fields| - i
  {
    if i < |s.fields| {
      var key := s.fields[i].0;
      assert (forall j | i <= j < |s.fields| :: s.fields[j].0 in encoded.fields)
        <==> key in encoded.fields && (forall j | i + 1 <= j < |s.fields| :: s.fields[j].0 in encoded.fields);
      if key in encoded.fields {
        var next := FieldKeyAlone(s, i, encoded, stack, base, littleEndian, acc);
        FieldKeysAlone(s, i + 1, encoded, stack, base, littleEndian, next);
      } else {
        FieldMissingAlone(s, i, encoded, stack, base, littleEndian, acc);
      }
    }
  }

  /** A present key of the standalone loop stores its field's fragment, keeping the fragments collected. */
  lemma {:induction false} FieldKeyAlone(s: Struct, i: nat, encoded: Doc, stack: Ctx, base: nat, littleEndian: Option<bool>, acc: PackAcc)
    returns (next: PackAcc)
    requires s.NamedAggregate? && PlainFields(s.fields) && i < |s.fields| && Collected(acc)
    requires encoded.Record? && s.fields[i].0 in encoded.fields && encoded.fields[s.fields[i].0].Number?
    ensures Collected(next)
    ensures PackFields(s, i, encoded, stack, base, littleEndian, acc) == PackFields(s, i + 1, encoded, stack, base, littleEndian, next)
  {
    var (key, c) := s.fields[i];
    var o := ChildOpts(acc, base, littleEndian, stack);
    assert Plain(c);
    PrimitiveAlone(c, Keyed(encoded, key), o);
    var p := PackSpec(c, Keyed(encoded, key), o).value;
    PackFieldsNext(s, i, encoded, stack, base, littleEndian, acc, p);
    AbsorbCollects(acc, p, acc.feed);
    next := Absorb(acc, p, acc.feed);
  }

  /** A missing key stops the loop with `MissingField` for that key. */
  lemma {:induction false} FieldMissingAlone(s: Struct, i: nat, encoded: Doc, stack: Ctx, base: nat, littleEndian: Option<bool>, acc: PackAcc)
    requires s.NamedAggregate? && PlainFields(s.fields) && i < |s.fields|
    requires encoded.Record? && s.fields[i].0 !in encoded.fields
    ensures PackFields(s, i, encoded, stack, base, littleEndian, acc) == Err(MissingField(s.fields[i].0))
  {
    var (key, c) := s.fields[i];
    assert Plain(c);
    assert PackSpec(c, Keyed(encoded, key), ChildOpts(acc, base, littleEndian, stack)) == Err(MissingField(key));
  }

  // ---- Binary_Array ----

  /** The fragments of the first items, each holding the element at its position. */
  predicate ItemFrags(frags: seq<Fragment>, items: seq<Struct>, values: seq<Doc>, littleEndian: Option<bool>)
    requires PlainItems(items) && Numbers(values)
  {
    && |frags| <= |items| && |frags| <= |values|
    && forall k | 0 <= k < |frags| :: FragmentOf(frags[k], items[k], values[k].n, littleEndian)
  }

  /**
   * The standalone pass over plain items pulling from a list with an element per item: it succeeds
   * with one fragment per item, each holding its element, an offset that is the items' total width,
   * and the iterator past the last item's element.
   */
  lemma {:induction false} PackPassAlone(s: Struct, i: nat, stack: Ctx, base: nat, littleEndian: Option<bool>, acc: PackAcc)
    requires s.IsArray() && PlainItems(s.items) && i <= |s.items|
    requires acc.feed.Cursor? && acc.feed.next == i && Numbers(acc.feed.items) && |s.items| <= |acc.feed.items|
    requires acc.view.None? && |acc.frags| == i && ItemFrags(acc.frags, s.items, acc.feed.items, littleEndian)
    requires acc.offset == ItemStart(s.items, i)
    ensures var r := PackPass(s, i, stack, base, littleEndian, acc);
      && r.Ok? && r.value.view.None? && r.value.feed == Cursor(acc.feed.items, |s.items|)
      && |r.value.frags| == |s.items| && ItemFrags(r.value.frags, s.items, acc.feed.items, littleEndian)
      && r.value.offset == ItemStart(s.items, |s.items|)
    decreases |s.items| - i
  {
    if i < |s.items| {
      var next := ItemAlone(s, i, stack, base, littleEndian, acc);
      PackPassAlone(s, i + 1, stack, base, littleEndian, next);
    }
  }

  /** Item `i` of the standalone pass takes the next element, adds its fragment and moves the pass on. */
  lemma {:induction false} ItemAlone(s: Struct, i: nat, stack: Ctx, base: nat, littleEndian: Option<bool>, acc: PackAcc)
    returns (next: PackAcc)
    requires s.IsArray() && PlainItems(s.items) && i < |s.items|
    requires acc.feed.Cursor? && acc.feed.next == i && Numbers(acc.feed.items) && |s.items| <= |acc.feed.items|
    requires acc.view.None? && |acc.frags| == i && ItemFrags(acc.frags, s.items, acc.feed.items, littleEndian)
    requires acc.offset == ItemStart(s.items, i)
    ensures next.view.None? && next.feed == Cursor(acc.feed.items, i + 1)
    ensures |next.frags| == i + 1 && ItemFrags(next.frags, s.items, acc.feed.items, littleEndian)
    ensures next.offset == ItemStart(s.items, i + 1)
    ensures PackPass(s, i, stack, base, littleEndian, acc) == PackPass(s, i + 1, stack, base, littleEndian, next)
  {
    var c := s.items[i];
    var o := ChildOpts(acc, base, littleEndian, stack);
    assert Plain(c) && acc.feed.items[i].Number?;
    PrimitiveAlone(c, acc.feed, o);
    var p := PackSpec(c, acc.feed, o).value;
    next := Absorb(acc, p, p.feed);
    PackPassNext(s, i, stack, base, littleEndian, acc, p);
    ItemFragsSnoc(acc.frags, Fragment(p.buffer, p.size), s.items, acc.feed.items, littleEndian);
  }

  /** An item that packs moves the pass on to the next item, with its result stored and the fetcher it left. */
  lemma {:induction false} PackPassNext(s: Struct, i: nat, stack: Ctx, base: nat, littleEndian: Option<bool>, acc: PackAcc, p: Packed)
    requires s.IsArray() && i < |s.items|
    requires PackSpec(s.items[i], acc.feed, ChildOpts(acc, base, littleEndian, stack)) == Ok(p)
    ensures PackPass(s, i, stack, base, littleEndian, acc) == PackPass(s, i + 1, stack, base, littleEndian, Absorb(acc, p, p.feed))
  {
  }

  /** The fragments of the first items, then that of the next item. */
  lemma {:induction false} ItemFragsSnoc(frags: seq<Fragment>, f: Fragment, items: seq<Struct>, values: seq<Doc>, littleEndian: Option<bool>)
    requires PlainItems(items) && Numbers(values) && ItemFrags(frags, items, values, littleEndian)
    requires |frags| < |items| && |frags| < |values|
    requires FragmentOf(f, items[|frags|], values[|frags|].n, littleEndian)
    ensures ItemFrags(frags + [f], items, values, littleEndian)
  {
    var longer := frags + [f];
    forall k | 0 <= k < |longer|
      ensures FragmentOf(longer[k], items[k], values[k].n, littleEndian)
    {
      if k < |frags| {
        assert longer[k] == frags[k];
      }
    }
  }

  /** One fragment per item, each as wide as its item: fragment `k` starts where item `k` does. */
  lemma {:induction false} FragStartItems(frags: seq<Fragment>, items: seq<Struct>, values: seq<Doc>, littleEndian: Option<bool>, k: nat)
    requires PlainItems(items) && Numbers(values) && ItemFrags(frags, items, values, littleEndian) && k <= |frags|
    ensures FragStart(frags, k) == ItemStart(items, k)
  {
    if k > 0 {
      FragStartItems(frags, items, values, littleEndian, k - 1);
      assert FragmentOf(frags[k - 1], items[k - 1], values[k - 1].n, littleEndian);
    }
  }

  /** The fragments of every item are collected: well framed, adding up to the pass's offset. */
  lemma {:induction false} ItemFragsCollected(acc: PackAcc, items: seq<Struct>, values: seq<Doc>, littleEndian: Option<bool>)
    requires PlainItems(items) && Numbers(values) && ItemFrags(acc.frags, items, values, littleEndian)
    requires acc.view.None? && |acc.frags| == |items| && acc.offset == ItemStart(items, |items|)
    ensures Collected(acc)
  {
    forall k | 0 <= k < |acc.frags|
      ensures CeilBytes(acc.frags[k].size) <= |acc.frags[k].buffer| / 8
    {
      assert FragmentOf(acc.frags[k], items[k], values[k].n, littleEndian);
      CeilWhole(acc.frags[k].size);
    }
    FragStartItems(acc.frags, items, values, littleEndian, |items|);
  }

  /**
   * `Binary_Array` over plain items packing a list of in-range numbers, one per item, with no shared
   * region: the result has the items' total width as its size and a byte per started byte, and
   * parsing it from offset 0 in the same byte order gives the list back.
   */
  lemma {:induction false} PositionalRoundTripAlone(s: Struct, values: seq<Doc>, littleEndian: Option<bool>, context: Ctx)
    requires s.PositionalAggregate? && PlainItems(s.items) && s.tc.encode.None? && s.tc.decode.None?
    requires |values| == |s.items| && forall j | 0 <= j < |values| :: values[j].Number? && InRange(s.items[j].kind, values[j].n, s.items[j].width)
    ensures var p := PackSpec(s, Given(List(values)), PackOpts(None, 0, littleEndian, context));
      && p.Ok? && p.value.size == ItemStart(s.items, |s.items|) && |p.value.buffer| == 8 * CeilBytes(p.value.size)
      && ParseSpec(s, p.value.buffer, ParseOpts(0, littleEndian, context), Drop) == Ok(Parsed(List(values), p.value.size, context))
  {
    var le := Endian(littleEndian, s.tc.littleEndian);
    var o := PackOpts(None, 0, littleEndian, context);
    var stack := SetContext(List(values), context);
    var start := PackAcc(None, [], 0, Cursor(values, 0));
    PackPassAlone(s, 0, stack, 0, le, start);
    var acc := PackPass(s, 0, stack, 0, le, start).value;
    ItemFragsCollected(acc, s.items, values, le);
    FinishCollected(acc);
    var buffer := Finish(acc).value.0;
    PackIsPositional(s, Given(List(values)), o);
    PositionalGiven(s, values, o);
    assert PackArrayBody(s, Cursor(values, 0), stack, context, None, 0, le) == Ok((buffer, acc.offset, acc.feed));
    forall j | 0 <= j < |s.items|
      ensures ItemHolds(s.items, j, buffer, 0, le, values)
    {
      assert FragmentOf(acc.frags[j], s.items[j], values[j].n, le);
      assert FragHolds(buffer, acc.frags, j);
      FragStartItems(acc.frags, s.items, values, le, j);
    }
    PositionalParse(s, buffer, 0, littleEndian, context);
    ReadItemsBack(s.items, buffer, 0, le, values);
  }
}
