/**
 * `Binary_Array` over plain numeric items: one pass of `__pack_loop` pulls one element of the list
 * per item and writes it at the running offset, failing once the list runs out; one pass of
 * `__parse_loop` reads every item at the running offset and appends it to the current list. A
 * positional aggregate makes exactly one pass; module Repetition strings passes together.
 */
module Positional {
  import opened Wrappers
  import opened Codec
  import opened Document
  import opened Structs
  import opened Transcode
  import opened Layouts

  predicate PlainItems(items: seq<Struct>)
  {
    forall j | 0 <= j < |items| :: Plain(items[j])
  }

  /** Every element of a list to pack is a number. */
  predicate Numbers(values: seq<Doc>)
  {
    forall m | 0 <= m < |values| :: values[m].Number?
  }

  /** Where item `j` starts within a pass: the widths of the items before it. */
  function ItemStart(items: seq<Struct>, j: nat): nat
    requires j <= |items|
  {
    if j == 0 then 0 else ItemStart(items, j - 1) + WidthOf(items[j - 1])
  }

  /** Item `i` lies before the end of the pass. */
  lemma {:induction false} ItemWithin(items: seq<Struct>, i: nat)
    requires i < |items|
    ensures ItemStart(items, i) + WidthOf(items[i]) <= ItemStart(items, |items|)
    decreases |items| - i
  {
    if i + 1 < |items| {
      ItemWithin(items, i + 1);
    }
  }

  /** What items `i` on read in a pass that starts at bit `origin`, in order. */
  function ReadItems(items: seq<Struct>, i: nat, view: seq<bool>, origin: nat, littleEndian: Option<bool>): (r: seq<Doc>)
    requires PlainItems(items) && i <= |items| && origin + ItemStart(items, |items|) <= |view|
    ensures |r| == |items| - i && Numbers(r)
    decreases |items| - i
  {
    if i == |items| then []
    else
      ItemWithin(items, i);
      [Number(Read(items[i], view, origin + ItemStart(items, i), littleEndian))] + ReadItems(items, i + 1, view, origin, littleEndian)
  }

  lemma {:induction false} PackIsPositional(s: Struct, source: Feed, o: PackOpts)
    requires s.IsArray()
    ensures PackSpec(s, source, o) == PackPositional(s, source, o)
  {
  }

  lemma {:induction false} ParseIsPositional(s: Struct, view: seq<bool>, o: ParseOpts, sink: Sink)
    requires s.IsArray()
    ensures ParseSpec(s, view, o, sink) == ParsePositional(s, view, o, sink)
  {
  }

  // ---- __pack_loop ----

  /**
   * What a pass over plain items from `i` on does in a shared region, the pass having begun at
   * offset `start` with the fetcher at element `first`: it succeeds exactly when the fetcher still
   * holds an element for every item, and fails with the iterator exhausted otherwise; item `j` gets
   * element `first + j` at `base + start + ItemStart(j)`, the fetcher moves past the elements taken,
   * and nothing outside the pass's bits changes.
   */
  predicate ItemsPacked(r: Result<PackAcc>, items: seq<Struct>, i: nat, base: nat, start: nat, first: nat, littleEndian: Option<bool>, acc: PackAcc)
    requires PlainItems(items) && i <= |items| && acc.view.Some? && acc.feed.Cursor? && Numbers(acc.feed.items)
  {
    var values := acc.feed.items;
    && (r.Ok? <==> first + |items| <= |values|)
    && (r.Err? ==> r.error == InsufficientData)
    && (r.Ok? ==>
          && r.value.view.Some? && r.value.offset == start + ItemStart(items, |items|)
          && r.value.feed == Cursor(values, first + |items|) && r.value.frags == acc.frags
          && Outside(acc.view.value, r.value.view.value, base + acc.offset, base + start + ItemStart(items, |items|))
          && forall j | i <= j < |items| ::
               Holds(r.value.view.value, base + start + ItemStart(items, j), Encoded(items[j], values[first + j].n, littleEndian)))
  }

  /** A pass over plain items from `i` on, in a shared region with room for all of them. */
  lemma {:induction false} PackPassPlain(s: Struct, i: nat, stack: Ctx, base: nat, start: nat, first: nat, littleEndian: Option<bool>, acc: PackAcc)
    requires s.IsArray() && PlainItems(s.items) && i <= |s.items|
    requires acc.view.Some? && acc.offset == start + ItemStart(s.items, i)
    requires base + start + ItemStart(s.items, |s.items|) <= |acc.view.value|
    requires acc.feed.Cursor? && Numbers(acc.feed.items) && acc.feed.next == first + i && acc.feed.next <= |acc.feed.items|
    ensures ItemsPacked(PackPass(s, i, stack, base, littleEndian, acc), s.items, i, base, start, first, littleEndian, acc)
    decreases |s.items| - i
  {
    if i < |s.items| {
      ItemWithin(s.items, i);
      var c := s.items[i];
      var values := acc.feed.items;
      if acc.feed.next < |values| {
        var bits := Encoded(c, values[acc.feed.next].n, littleEndian);
        var next := PackAcc(Some(Overwrite(acc.view.value, base + acc.offset, bits)), acc.frags, acc.offset + c.width,
                            Cursor(values, acc.feed.next + 1));
        PackPassPlain(s, i + 1, stack, base, start, first, littleEndian, next);
        var r := PackPass(s, i + 1, stack, base, littleEndian, next);
        PackItemsCons(s, i, stack, base, start, first, littleEndian, acc, next, r);
      } else {
        PackItemStep(s, i, stack, base, littleEndian, acc, acc);
        assert !(first + |s.items| <= |values|);
      }
    } else {
      assert PackPass(s, i, stack, base, littleEndian, acc) == Ok(acc);
    }
  }

  /** Item `i` of a pass, with an element left to take, followed by the items after it. */
  lemma {:induction false} PackItemsCons(s: Struct, i: nat, stack: Ctx, base: nat, start: nat, first: nat, littleEndian: Option<bool>,
                                         acc: PackAcc, next: PackAcc, r: Result<PackAcc>)
    requires s.IsArray() && PlainItems(s.items) && i < |s.items|
    requires acc.view.Some? && acc.offset == start + ItemStart(s.items, i)
    requires base + start + ItemStart(s.items, |s.items|) <= |acc.view.value|
    requires base + acc.offset + WidthOf(s.items[i]) <= |acc.view.value|
    requires acc.feed.Cursor? && Numbers(acc.feed.items) && acc.feed.next == first + i && acc.feed.next < |acc.feed.items|
    requires next == PackAcc(Some(Overwrite(acc.view.value, base + acc.offset, Encoded(s.items[i], acc.feed.items[acc.feed.next].n, littleEndian))),
                             acc.frags, acc.offset + s.items[i].width, Cursor(acc.feed.items, acc.feed.next + 1))
    requires r == PackPass(s, i + 1, stack, base, littleEndian, next)
    requires ItemsPacked(r, s.items, i + 1, base, start, first, littleEndian, next)
    ensures ItemsPacked(PackPass(s, i, stack, base, littleEndian, acc), s.items, i, base, start, first, littleEndian, acc)
  {
    PackItemStep(s, i, stack, base, littleEndian, acc, next);
    ItemsPackedStep(r, s.items, i, base, start, first, littleEndian, acc, next);
  }

  /** Writing item `i`, then the items after it, is the pass from `i` on. */
  lemma {:induction false} ItemsPackedStep(r: Result<PackAcc>, items: seq<Struct>, i: nat, base: nat, start: nat, first: nat, littleEndian: Option<bool>,
                                           acc: PackAcc, next: PackAcc)
    requires PlainItems(items) && i < |items| && acc.view.Some? && acc.feed.Cursor? && Numbers(acc.feed.items)
    requires acc.offset == start + ItemStart(items, i) && base + start + ItemStart(items, |items|) <= |acc.view.value|
    requires acc.feed.next == first + i && acc.feed.next < |acc.feed.items|
    requires base + acc.offset + WidthOf(items[i]) <= |acc.view.value|
    requires next.view == Some(Overwrite(acc.view.value, base + acc.offset, Encoded(items[i], acc.feed.items[acc.feed.next].n, littleEndian)))
    requires next.frags == acc.frags && next.offset == acc.offset + items[i].width && next.feed == Cursor(acc.feed.items, acc.feed.next + 1)
    requires ItemsPacked(r, items, i + 1, base, start, first, littleEndian, next)
    ensures ItemsPacked(r, items, i, base, start, first, littleEndian, acc)
  {
    if r.Ok? {
      ItemWithin(items, i);
      ItemWritten(acc.view.value, r.value.view.value, items, i, base, start, first, littleEndian, acc.feed.items);
    }
  }

  /**
   * Item `i` written over `view`, then the items after it written with nothing else changed, leaves
   * every item from `i` on holding its element and nothing else changed.
   */
  lemma {:induction false} ItemWritten(view: seq<bool>, after: seq<bool>, items: seq<Struct>, i: nat, base: nat, start: nat, first: nat,
                                       littleEndian: Option<bool>, values: seq<Doc>)
    requires PlainItems(items) && i < |items| && Numbers(values) && first + |items| <= |values|
    requires base + start + ItemStart(items, |items|) <= |view|
    requires base + start + ItemStart(items, i) + items[i].width <= base + start + ItemStart(items, |items|)
    requires Outside(Overwrite(view, base + start + ItemStart(items, i), Encoded(items[i], values[first + i].n, littleEndian)), after,
                     base + start + ItemStart(items, i) + items[i].width, base + start + ItemStart(items, |items|))
    requires forall j | i + 1 <= j < |items| :: Holds(after, base + start + ItemStart(items, j), Encoded(items[j], values[first + j].n, littleEndian))
    ensures Outside(view, after, base + start + ItemStart(items, i), base + start + ItemStart(items, |items|))
    ensures forall j | i <= j < |items| :: Holds(after, base + start + ItemStart(items, j), Encoded(items[j], values[first + j].n, littleEndian))
  {
    WriteThenKeep(view, base + start + ItemStart(items, i), Encoded(items[i], values[first + i].n, littleEndian),
                  after, base + start + ItemStart(items, |items|));
    ItemsHoldFrom(after, items, i, base, start, first, littleEndian, values);
  }

  /** Item `i` holding its element, and every item after it too, is every item from `i` on. */
  lemma {:induction false} ItemsHoldFrom(view: seq<bool>, items: seq<Struct>, i: nat, base: nat, start: nat, first: nat,
                                         littleEndian: Option<bool>, values: seq<Doc>)
    requires PlainItems(items) && i < |items| && Numbers(values) && first + |items| <= |values|
    requires Holds(view, base + start + ItemStart(items, i), Encoded(items[i], values[first + i].n, littleEndian))
    requires forall j | i + 1 <= j < |items| :: Holds(view, base + start + ItemStart(items, j), Encoded(items[j], values[first + j].n, littleEndian))
    ensures forall j | i <= j < |items| :: Holds(view, base + start + ItemStart(items, j), Encoded(items[j], values[first + j].n, littleEndian))
  {
    forall j | i <= j < |items|
      ensures Holds(view, base + start + ItemStart(items, j), Encoded(items[j], values[first + j].n, littleEndian))
    {
      if j != i {
        assert i + 1 <= j;
      }
    }
  }

  /** One item of a pass: an element left to take is written and the fetcher moves on; none left fails. */
  lemma {:induction false} PackItemStep(s: Struct, i: nat, stack: Ctx, base: nat, littleEndian: Option<bool>, acc: PackAcc, next: PackAcc)
    requires s.IsArray() && PlainItems(s.items) && i < |s.items|
    requires acc.view.Some? && base + acc.offset + WidthOf(s.items[i]) <= |acc.view.value|
    requires acc.feed.Cursor? && Numbers(acc.feed.items)
    requires acc.feed.next < |acc.feed.items| ==>
      next == PackAcc(Some(Overwrite(acc.view.value, base + acc.offset, Encoded(s.items[i], acc.feed.items[acc.feed.next].n, littleEndian))),
                      acc.frags, acc.offset + s.items[i].width, Cursor(acc.feed.items, acc.feed.next + 1))
    ensures acc.feed.next >= |acc.feed.items| ==>
      PackPass(s, i, stack, base, littleEndian, acc) == Err(InsufficientData)
    ensures acc.feed.next < |acc.feed.items| ==>
      PackPass(s, i, stack, base, littleEndian, acc) == PackPass(s, i + 1, stack, base, littleEndian, next)
  {
    var c := s.items[i];
    if acc.feed.next < |acc.feed.items| {
      assert PackSpec(c, acc.feed, ChildOpts(acc, base, littleEndian, stack)) == Ok(Packed(next.view.value, c.width, next.feed));
    } else {
      assert PackSpec(c, acc.feed, ChildOpts(acc, base, littleEndian, stack)) == Err(InsufficientData);
    }
  }

  // ---- __parse_loop ----

  /**
   * A pass over plain items from `i` on, the pass having begun at offset `start` and the region
   * holding all of its items: every item reads its bits at `base + start + ItemStart(j)` and is
   * appended, in order, to the current list, which is all that changes in the context.
   */
  lemma {:induction false} ParsePassPlain(s: Struct, i: nat, view: seq<bool>, base: nat, start: nat, littleEndian: Option<bool>,
                                          got: seq<Doc>, chain: Ctx, acc: ParseAcc)
    requires s.IsArray() && PlainItems(s.items) && i <= |s.items|
    requires base + start + ItemStart(s.items, |s.items|) <= |view|
    requires acc == ParseAcc([List(got)] + chain, start + ItemStart(s.items, i))
    ensures ParsePass(s, i, view, base, littleEndian, acc)
      == Ok(ParseAcc([List(got + ReadItems(s.items, i, view, base + start, littleEndian))] + chain, start + ItemStart(s.items, |s.items|)))
    decreases |s.items| - i
  {
    if i < |s.items| {
      ItemWithin(s.items, i);
      var raw := Number(Read(s.items[i], view, base + acc.offset, littleEndian));
      var next := ParseAcc([List(got + [raw])] + chain, acc.offset + s.items[i].width);
      ParsePassPlain(s, i + 1, view, base, start, littleEndian, got + [raw], chain, next);
      ParseItemsCons(s, i, view, base, start, littleEndian, got, chain, acc, raw, next);
    } else {
      assert got + [] == got;
    }
  }

  /** Item `i` of a parse pass followed by the items after it. */
  lemma {:induction false} ParseItemsCons(s: Struct, i: nat, view: seq<bool>, base: nat, start: nat, littleEndian: Option<bool>,
                                          got: seq<Doc>, chain: Ctx, acc: ParseAcc, raw: Doc, next: ParseAcc)
    requires s.IsArray() && PlainItems(s.items) && i < |s.items|
    requires base + start + ItemStart(s.items, |s.items|) <= |view|
    requires acc == ParseAcc([List(got)] + chain, start + ItemStart(s.items, i))
    requires start + ItemStart(s.items, i) + WidthOf(s.items[i]) <= start + ItemStart(s.items, |s.items|)
    requires raw == Number(Read(s.items[i], view, base + acc.offset, littleEndian))
    requires next == ParseAcc([List(got + [raw])] + chain, acc.offset + s.items[i].width)
    requires ParsePass(s, i + 1, view, base, littleEndian, next)
      == Ok(ParseAcc([List(got + [raw] + ReadItems(s.items, i + 1, view, base + start, littleEndian))] + chain, start + ItemStart(s.items, |s.items|)))
    ensures ParsePass(s, i, view, base, littleEndian, acc)
      == Ok(ParseAcc([List(got + ReadItems(s.items, i, view, base + start, littleEndian))] + chain, start + ItemStart(s.items, |s.items|)))
  {
    ParseItemStep(s, i, view, base, littleEndian, got, chain, acc.offset, raw);
    ReadItemsStep(s.items, i, view, base + start, littleEndian, raw);
    AppendAssoc(got, raw, ReadItems(s.items, i + 1, view, base + start, littleEndian));
  }

  /** What item `i` reads, then what the items after it read. */
  lemma {:induction false} ReadItemsStep(items: seq<Struct>, i: nat, view: seq<bool>, origin: nat, littleEndian: Option<bool>, raw: Doc)
    requires PlainItems(items) && i < |items| && origin + ItemStart(items, |items|) <= |view|
    requires ItemStart(items, i) + WidthOf(items[i]) <= ItemStart(items, |items|)
    requires raw == Number(Read(items[i], view, origin + ItemStart(items, i), littleEndian))
    ensures ReadItems(items, i, view, origin, littleEndian) == [raw] + ReadItems(items, i + 1, view, origin, littleEndian)
  {
  }

  lemma {:induction false} AppendAssoc(got: seq<Doc>, raw: Doc, later: seq<Doc>)
    ensures got + [raw] + later == got + ([raw] + later)
  {
  }

  /** One item of a parse pass: its number appended to the current list. */
  lemma {:induction false} ParseItemStep(s: Struct, i: nat, view: seq<bool>, base: nat, littleEndian: Option<bool>,
                                         got: seq<Doc>, chain: Ctx, offset: nat, raw: Doc)
    requires s.IsArray() && PlainItems(s.items) && i < |s.items|
    requires base + offset + WidthOf(s.items[i]) <= |view|
    requires raw == Number(Read(s.items[i], view, base + offset, littleEndian))
    ensures ParsePass(s, i, view, base, littleEndian, ParseAcc([List(got)] + chain, offset))
      == ParsePass(s, i + 1, view, base, littleEndian, ParseAcc([List(got + [raw])] + chain, offset + s.items[i].width))
  {
    ItemParsed(s.items[i], view, base + offset, littleEndian, got, chain, raw);
    ParsePassNext(s, i, view, base, littleEndian, ParseAcc([List(got)] + chain, offset),
                  Parsed(raw, s.items[i].width, [List(got + [raw])] + chain));
  }

  /** A plain item parsed onto the current list appends its number to it. */
  lemma {:induction false} ItemParsed(c: Struct, view: seq<bool>, at: nat, littleEndian: Option<bool>, got: seq<Doc>, chain: Ctx, raw: Doc)
    requires Plain(c) && at + c.width <= |view|
    requires raw == Number(Read(c, view, at, littleEndian))
    ensures ParseSpec(c, view, ParseOpts(at, littleEndian, [List(got)] + chain), Push)
      == Ok(Parsed(raw, c.width, [List(got + [raw])] + chain))
  {
    assert ([List(got)] + chain)[1..] == chain;
  }

  // ---- Binary_Array ----

  /** Item `j` holds the encoding of the in-range number at position `j` of `values`. */
  predicate ItemHolds(items: seq<Struct>, j: nat, view: seq<bool>, origin: nat, littleEndian: Option<bool>, values: seq<Doc>)
    requires PlainItems(items) && j < |items|
  {
    && j < |values| && values[j].Number? && InRange(items[j].kind, values[j].n, items[j].width)
    && Holds(view, origin + ItemStart(items, j), Encoded(items[j], values[j].n, littleEndian))
  }

  /** Items that hold the encodings of in-range numbers read back exactly those numbers, in order. */
  lemma {:induction false} ReadItemsBack(items: seq<Struct>, view: seq<bool>, origin: nat, littleEndian: Option<bool>, values: seq<Doc>)
    requires PlainItems(items) && origin + ItemStart(items, |items|) <= |view| && |values| == |items|
    requires forall j | 0 <= j < |items| :: ItemHolds(items, j, view, origin, littleEndian, values)
    ensures ReadItems(items, 0, view, origin, littleEndian) == values
  {
    ReadItemsFrom(items, 0, view, origin, littleEndian, values);
  }

  lemma {:induction false} ReadItemsFrom(items: seq<Struct>, i: nat, view: seq<bool>, origin: nat, littleEndian: Option<bool>, values: seq<Doc>)
    requires PlainItems(items) && i <= |items| && origin + ItemStart(items, |items|) <= |view| && |values| == |items|
    requires forall j | i <= j < |items| :: ItemHolds(items, j, view, origin, littleEndian, values)
    ensures ReadItems(items, i, view, origin, littleEndian) == values[i..]
    decreases |items| - i
  {
    if i < |items| {
      ReadItemsFrom(items, i + 1, view, origin, littleEndian, values);
      ItemReadsBack(items, i, view, origin, littleEndian, values);
      assert values[i..] == [values[i]] + values[i + 1..];
    }
  }

  /** One item holding the encoding of an in-range number reads back that number. */
  lemma {:induction false} ItemReadsBack(items: seq<Struct>, i: nat, view: seq<bool>, origin: nat, littleEndian: Option<bool>, values: seq<Doc>)
    requires PlainItems(items) && i < |items| && origin + ItemStart(items, |items|) <= |view|
    requires ItemHolds(items, i, view, origin, littleEndian, values)
    ensures ItemStart(items, i) + WidthOf(items[i]) <= ItemStart(items, |items|)
    ensures Number(Read(items[i], view, origin + ItemStart(items, i), littleEndian)) == values[i]
  {
    ItemWithin(items, i);
    EncodedReadsBack(items[i], view, origin + ItemStart(items, i), values[i].n, littleEndian);
  }

  /** `Binary_Array` over plain items packing a list into a shared region with room for it. */
  lemma {:induction false} PositionalPack(s: Struct, values: seq<Doc>, region: seq<bool>, offset: nat, littleEndian: Option<bool>, context: Ctx)
    requires s.PositionalAggregate? && PlainItems(s.items) && s.tc.encode.None? && Numbers(values)
    requires offset + ItemStart(s.items, |s.items|) <= |region|
    ensures PositionalPacked(PackSpec(s, Given(List(values)), PackOpts(Some(region), offset, littleEndian, context)),
                             s.items, values, region, offset, Endian(littleEndian, s.tc.littleEndian))
  {
    var le := Endian(littleEndian, s.tc.littleEndian);
    var o := PackOpts(Some(region), offset, littleEndian, context);
    var stack := SetContext(List(values), context);
    var start := PackAcc(Some(region), [], 0, Cursor(values, 0));
    PackPassPlain(s, 0, stack, offset, 0, 0, le, start);
    var r := PackPass(s, 0, stack, offset, le, start);
    PackIsPositional(s, Given(List(values)), o);
    PositionalGiven(s, values, o);
    PassBody(s, Cursor(values, 0), stack, context, region, offset, le, r);
    PackedFromPass(PackSpec(s, Given(List(values)), o), r, s.items, values, region, offset, le);
  }

  /**
   * What packing a list into a shared region with a positional aggregate over plain items gives: it
   * succeeds exactly when the list has an element for every item (extra elements are ignored) and
   * fails with the iterator exhausted otherwise; the size is the sum of the items' widths, item `j`
   * holds element `j` at `offset + ItemStart(j)`, and nothing outside the aggregate's bits changes.
   */
  predicate PositionalPacked(p: Result<Packed>, items: seq<Struct>, values: seq<Doc>, region: seq<bool>, offset: nat, littleEndian: Option<bool>)
    requires PlainItems(items) && Numbers(values)
  {
    && (p.Ok? <==> |items| <= |values|)
    && (p.Err? ==> p.error == InsufficientData)
    && (p.Ok? ==>
          && p.value.size == ItemStart(items, |items|) && p.value.feed == Given(List(values))
          && Outside(region, p.value.buffer, offset, offset + p.value.size)
          && forall j | 0 <= j < |items| :: Holds(p.value.buffer, offset + ItemStart(items, j), Encoded(items[j], values[j].n, littleEndian)))
  }

  /** The aggregate's result from its one pass's. */
  lemma {:induction false} PackedFromPass(p: Result<Packed>, r: Result<PackAcc>, items: seq<Struct>, values: seq<Doc>, region: seq<bool>,
                                          offset: nat, littleEndian: Option<bool>)
    requires PlainItems(items) && Numbers(values)
    requires r.Ok? ==> r.value.view.Some?
    requires p == if r.Ok? then Ok(Packed(r.value.view.value, r.value.offset, Given(List(values)))) else Err(r.error)
    requires ItemsPacked(r, items, 0, offset, 0, 0, littleEndian, PackAcc(Some(region), [], 0, Cursor(values, 0)))
    ensures PositionalPacked(p, items, values, region, offset, littleEndian)
  {
    if r.Ok? {
      var buffer := r.value.view.value;
      forall j | 0 <= j < |items|
        ensures Holds(buffer, offset + ItemStart(items, j), Encoded(items[j], values[j].n, littleEndian))
      {
        assert Holds(buffer, offset + 0 + ItemStart(items, j), Encoded(items[j], values[0 + j].n, littleEndian));
      }
    }
  }

  /** A list handed to a positional aggregate without an encode hook feeds its items through a fresh iterator. */
  lemma {:induction false} PositionalGiven(s: Struct, values: seq<Doc>, o: PackOpts)
    requires s.IsArray() && s.tc.encode.None?
    ensures PackPositional(s, Given(List(values)), o)
      == match PackArrayBody(s, Cursor(values, 0), SetContext(List(values), o.context), o.context, o.view, o.offset, Endian(o.littleEndian, s.tc.littleEndian))
         case Err(e) => Err(e)
         case Ok((buffer, size, _)) => Ok(Packed(buffer, size, Given(List(values))))
  {
    assert FetchAndEncode(Given(List(values)), s.tc.encode, o.context) == Ok((List(values), Given(List(values))));
  }

  /** A positional aggregate in a shared region makes one pass and returns the region it updated. */
  lemma {:induction false} PassBody(s: Struct, fetcher: Feed, stack: Ctx, parent: Ctx, region: seq<bool>, base: nat, littleEndian: Option<bool>,
                                    r: Result<PackAcc>)
    requires s.PositionalAggregate?
    requires r == PackPass(s, 0, stack, base, littleEndian, PackAcc(Some(region), [], 0, fetcher))
    ensures r.Ok? ==> r.value.view.Some?
    ensures PackArrayBody(s, fetcher, stack, parent, Some(region), base, littleEndian)
      == if r.Ok? then Ok((r.value.view.value, r.value.offset, r.value.feed)) else Err(r.error)
  {
  }

  /**
   * `Binary_Array`'s parse over plain items, with the region holding all of them: the size is the
   * sum of the widths, the list holds what every item reads, in order, and a decoder sees that list
   * alone, its back-reference removed before decoding.
   */
  lemma {:induction false} PositionalParse(s: Struct, view: seq<bool>, offset: nat, littleEndian: Option<bool>, context: Ctx)
    requires s.PositionalAggregate? && PlainItems(s.items)
    requires offset + ItemStart(s.items, |s.items|) <= |view|
    ensures var values := List(ReadItems(s.items, 0, view, offset, Endian(littleEndian, s.tc.littleEndian)));
      ParseSpec(s, view, ParseOpts(offset, littleEndian, context), Drop)
        == Ok(Parsed(if s.tc.decode.Some? then s.tc.decode.value([values], context) else values,
                     ItemStart(s.items, |s.items|), context))
  {
    var le := Endian(littleEndian, s.tc.littleEndian);
    var start := ParseAcc([List([])] + context, 0);
    ParseIsPositional(s, view, ParseOpts(offset, littleEndian, context), Drop);
    ParsePassPlain(s, 0, view, offset, 0, le, [], context, start);
    assert ParseLoop(s, view, context, offset, le, start) == ParsePass(s, 0, view, offset, le, start);
    var back := ReadItems(s.items, 0, view, offset, le);
    assert [] + back == back;
  }

  /**
   * `Binary_Array` over plain items, packing a list of in-range numbers with one element per item into
   * a shared region with room for it and parsing from the same offset in the same byte order, gives
   * the list back.
   */
  lemma {:induction false} PositionalRoundTrip(s: Struct, values: seq<Doc>, region: seq<bool>, offset: nat, littleEndian: Option<bool>, context: Ctx)
    requires s.PositionalAggregate? && PlainItems(s.items) && s.tc.encode.None? && s.tc.decode.None?
    requires |values| == |s.items| && forall j | 0 <= j < |values| :: values[j].Number? && InRange(s.items[j].kind, values[j].n, s.items[j].width)
    requires offset + ItemStart(s.items, |s.items|) <= |region|
    ensures var p := PackSpec(s, Given(List(values)), PackOpts(Some(region), offset, littleEndian, context));
      && p.Ok?
      && ParseSpec(s, p.value.buffer, ParseOpts(offset, littleEndian, context), Drop)
           == Ok(Parsed(List(values), p.value.size, context))
  {
    var le := Endian(littleEndian, s.tc.littleEndian);
    PositionalPack(s, values, region, offset, littleEndian, context);
    var packed := PackSpec(s, Given(List(values)), PackOpts(Some(region), offset, littleEndian, context)).value.buffer;
    PositionalParse(s, packed, offset, littleEndian, context);
    ReadItemsBack(s.items, packed, offset, le, values);
  }
}
