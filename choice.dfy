/**
 * `Branch` and `Embed`. A branch is, for every call, exactly the Struct its discriminant names for
 * the context of that call. An embedded aggregate has no document of its own: a named one packs its
 * fields from the enclosing document and parses them into it, a positional one takes its elements
 * from the enclosing iterator and appends what it reads to the enclosing list. Anything else
 * embedded, or an embedding used without a context, behaves as the embedded Struct itself.
 */
module Choice {
  import opened Wrappers
  import opened Codec
  import opened Document
  import opened Structs
  import opened Transcode
  import opened LeafProperties
  import opened Layouts
  import opened Positional

  // ---- Branch ----

  /**
   * Packing through a branch packs with the choice stored under the discriminant's key for the
   * call's context, else with the default choice; with neither, packing fails before the source is
   * read.
   */
  lemma BranchPack(s: Struct, source: Feed, o: PackOpts)
    requires s.Branch?
    ensures var key := s.chooser(o.context);
      && (key in s.choices ==> PackSpec(s, source, o) == PackSpec(s.choices[key], source, o))
      && (key !in s.choices && s.fallback.Some? ==> PackSpec(s, source, o) == PackSpec(s.fallback.value, source, o))
      && (key !in s.choices && s.fallback.None? ==> PackSpec(s, source, o) == Err(UnknownChoice(key)))
  {
  }

  /** Parsing through a branch is parsing with the same choice, region, options and callback. */
  lemma BranchParse(s: Struct, view: seq<bool>, o: ParseOpts, sink: Sink)
    requires s.Branch?
    ensures var key := s.chooser(o.context);
      && (key in s.choices ==> ParseSpec(s, view, o, sink) == ParseSpec(s.choices[key], view, o, sink))
      && (key !in s.choices && s.fallback.Some? ==> ParseSpec(s, view, o, sink) == ParseSpec(s.fallback.value, view, o, sink))
      && (key !in s.choices && s.fallback.None? ==> ParseSpec(s, view, o, sink) == Err(UnknownChoice(key)))
  {
  }

  /**
   * A branch whose discriminant picks a hook-free primitive field for the context packs a value of
   * that field's range and parses it back, as long as both sides see the same context: the choice is
   * made afresh on each call.
   */
  lemma {:induction false} BranchRoundTrip(s: Struct, n: int, view: Option<seq<bool>>, offset: nat, littleEndian: Option<bool>, context: Ctx)
    requires s.Branch? && Choose(s, context).Ok?
    requires var c := Choose(s, context).value;
      c.Primitive? && c.tc.encode.None? && c.tc.decode.None? && InRange(c.kind, n, c.width)
    requires view.None? ==> offset == 0
    requires view.Some? ==> offset + Choose(s, context).value.width <= |view.value|
    ensures var p := PackSpec(s, Given(Number(n)), PackOpts(view, offset, littleEndian, context));
      && p.Ok? && p.value.size == Choose(s, context).value.width
      && ParseSpec(s, p.value.buffer, ParseOpts(offset, littleEndian, context), Drop) == Ok(Parsed(Number(n), p.value.size, context))
  {
    var c := Choose(s, context).value;
    var o := PackOpts(view, offset, littleEndian, context);
    BranchPack(s, Given(Number(n)), o);
    PrimitiveRoundTrip(c, n, view, offset, littleEndian, context);
    BranchParse(s, PackSpec(c, Given(Number(n)), o).value.buffer, ParseOpts(offset, littleEndian, context), Drop);
  }

  // ---- Embed ----

  /** Without a context, or with nothing aggregate inside, an embedding packs as the embedded Struct. */
  lemma EmbedPackPassesThrough(s: Struct, source: Feed, o: PackOpts)
    requires s.Embed? && (|o.context| == 0 || !(s.inner.NamedAggregate? || s.inner.IsArray()))
    ensures PackSpec(s, source, o) == PackSpec(s.inner, source, o)
  {
  }

  /** Without a context, or with nothing aggregate inside, an embedding parses as the embedded Struct. */
  lemma EmbedParsePassesThrough(s: Struct, view: seq<bool>, o: ParseOpts, sink: Sink)
    requires s.Embed? && (|o.context| == 0 || !(s.inner.NamedAggregate? || s.inner.IsArray()))
    ensures ParseSpec(s, view, o, sink) == ParseSpec(s.inner, view, o, sink)
  {
  }

  /** Every field present in `doc` holds a number. */
  predicate NumbersUnder(fields: seq<(string, Struct)>, doc: Doc)
    requires doc.Record?
  {
    forall j | 0 <= j < |fields| && fields[j].0 in doc.fields :: doc.fields[fields[j].0].Number?
  }

  /**
   * What an embedded named aggregate over plain fields packing the enclosing record `encoded` into a
   * shared region gives: it succeeds exactly when the record has every field's key and fails on a
   * missing key otherwise; the size is the sum of the widths, the source is left alone, field `j`
   * holds the number under its key at `offset + FieldStart(j)`, and nothing outside the aggregate's
   * bits changes.
   */
  predicate FieldsEmbedded(p: Result<Packed>, fields: seq<(string, Struct)>, source: Feed, encoded: Doc,
                           region: seq<bool>, offset: nat, littleEndian: Option<bool>)
    requires PlainFields(fields) && encoded.Record? && NumbersUnder(fields, encoded)
  {
    && (p.Ok? <==> forall j | 0 <= j < |fields| :: fields[j].0 in encoded.fields)
    && (p.Err? ==> p.error.MissingField? && p.error.key !in encoded.fields)
    && (p.Ok? ==>
          && p.value.size == FieldStart(fields, |fields|) && p.value.feed == source
          && Outside(region, p.value.buffer, offset, offset + p.value.size)
          && forall j | 0 <= j < |fields| ::
               Holds(p.value.buffer, offset + FieldStart(fields, j), Encoded(fields[j].1, encoded.fields[fields[j].0].n, littleEndian)))
  }

  /**
   * An embedded named aggregate over plain fields, packed into a shared region with room for it,
   * reads its fields from the enclosing document (the current one) and leaves the source alone.
   */
  lemma {:induction false} EmbedNamedPack(s: Struct, source: Feed, region: seq<bool>, offset: nat, littleEndian: Option<bool>, context: Ctx)
    requires s.Embed? && s.inner.NamedAggregate? && PlainFields(s.inner.fields)
    requires |context| > 0 && context[0].Record? && NumbersUnder(s.inner.fields, context[0])
    requires offset + FieldStart(s.inner.fields, |s.inner.fields|) <= |region|
    ensures FieldsEmbedded(PackSpec(s, source, PackOpts(Some(region), offset, littleEndian, context)), s.inner.fields, source, context[0],
                           region, offset, Endian(littleEndian, s.inner.tc.littleEndian))
  {
    PackFieldsPlain(s.inner, 0, context[0], context, offset, Endian(littleEndian, s.inner.tc.littleEndian), PackAcc(Some(region), [], 0, Given(Null)));
    EmbedNamedBody(s, source, PackOpts(Some(region), offset, littleEndian, context),
                   PackFields(s.inner, 0, context[0], context, offset, Endian(littleEndian, s.inner.tc.littleEndian), PackAcc(Some(region), [], 0, Given(Null))));
    FieldsEmbeddedFrom(PackSpec(s, source, PackOpts(Some(region), offset, littleEndian, context)),
                       PackFields(s.inner, 0, context[0], context, offset, Endian(littleEndian, s.inner.tc.littleEndian), PackAcc(Some(region), [], 0, Given(Null))),
                       s.inner.fields, source, context[0], region, offset, Endian(littleEndian, s.inner.tc.littleEndian));
  }

  /** An embedded named aggregate with a context packs its fields from the current document. */
  lemma {:induction false} EmbedNamedBody(s: Struct, source: Feed, o: PackOpts, r: Result<PackAcc>)
    requires s.Embed? && s.inner.NamedAggregate? && |o.context| > 0 && o.view.Some?
    requires r == PackFields(s.inner, 0, o.context[0], o.context, o.offset, Endian(o.littleEndian, s.inner.tc.littleEndian),
                             PackAcc(o.view, [], 0, Given(Null)))
    ensures r.Ok? ==> r.value.view.Some?
    ensures PackSpec(s, source, o) == if r.Ok? then Ok(Packed(r.value.view.value, r.value.offset, source)) else Err(r.error)
  {
    var le := Endian(o.littleEndian, s.inner.tc.littleEndian);
    assert PackSpec(s, source, o) == PackEmbed(s, source, o);
    if r.Ok? {
      assert PackFieldsBody(s.inner, o.context[0], o.context, o.view, o.offset, le) == Ok((r.value.view.value, r.value.offset));
    } else {
      assert PackFieldsBody(s.inner, o.context[0], o.context, o.view, o.offset, le) == Err(r.error);
    }
  }

  /** The embedding's result from its field loop's. */
  lemma {:induction false} FieldsEmbeddedFrom(p: Result<Packed>, r: Result<PackAcc>, fields: seq<(string, Struct)>, source: Feed, encoded: Doc,
                                              region: seq<bool>, offset: nat, littleEndian: Option<bool>)
    requires PlainFields(fields) && encoded.Record? && NumbersUnder(fields, encoded)
    requires r.Ok? ==> r.value.view.Some?
    requires p == if r.Ok? then Ok(Packed(r.value.view.value, r.value.offset, source)) else Err(r.error)
    requires FieldsPacked(r, fields, 0, encoded, offset, littleEndian, PackAcc(Some(region), [], 0, Given(Null)))
    ensures FieldsEmbedded(p, fields, source, encoded, region, offset, littleEndian)
  {
    if r.Ok? {
      assert offset + 0 == offset;
    }
  }

  /**
   * An embedded named aggregate over plain fields, parsed from a region holding all of them, sets
   * every field's key on the enclosing document (the current one) and leaves the rest of the chain
   * alone; the caller's callback is not used, and a decoder sees the enclosing document with its
   * chain and the grandparent as context.
   */
  lemma {:induction false} EmbedNamedParse(s: Struct, view: seq<bool>, offset: nat, littleEndian: Option<bool>,
                                           results: map<string, Doc>, chain: Ctx, sink: Sink)
    requires s.Embed? && s.inner.NamedAggregate? && PlainFields(s.inner.fields)
    requires offset + FieldStart(s.inner.fields, |s.inner.fields|) <= |view|
    ensures var inner := s.inner;
      var merged := [Record(results + ReadFields(inner.fields, 0, view, offset, Endian(littleEndian, inner.tc.littleEndian)))] + chain;
      ParseSpec(s, view, ParseOpts(offset, littleEndian, [Record(results)] + chain), sink)
        == Ok(Parsed(Decoded(merged, inner.tc.decode, chain), FieldStart(inner.fields, |inner.fields|), merged))
  {
    var inner := s.inner;
    var le := Endian(littleEndian, inner.tc.littleEndian);
    var context := [Record(results)] + chain;
    ParseFieldsPlain(inner, 0, view, offset, le, results, chain, 0, ParseAcc(context, 0));
    assert context[1..] == chain;
  }

  /** Every field's key is in `doc`, bound to a number of the field's range. */
  predicate Carries(fields: seq<(string, Struct)>, doc: Doc)
    requires PlainFields(fields)
  {
    && doc.Record?
    && forall j | 0 <= j < |fields| ::
         fields[j].0 in doc.fields && doc.fields[fields[j].0].Number?
         && InRange(fields[j].1.kind, doc.fields[fields[j].0].n, fields[j].1.width)
  }

  /**
   * What parsing an embedded named aggregate back into an enclosing record under construction gives:
   * a result of the expected size on the same chain, whose current record binds every field's key to
   * the value `doc` has under it and keeps every other key of `results`.
   */
  predicate FieldsBack(r: Result<Parsed>, fields: seq<(string, Struct)>, doc: map<string, Doc>, results: map<string, Doc>,
                       chain: Ctx, size: nat)
  {
    && r.Ok? && r.value.size == size && |r.value.context| > 0 && r.value.context[1..] == chain && r.value.context[0].Record?
    && (forall j | 0 <= j < |fields| ::
          fields[j].0 in r.value.context[0].fields && fields[j].0 in doc && r.value.context[0].fields[fields[j].0] == doc[fields[j].0])
    && (forall k | k in results && (forall j | 0 <= j < |fields| :: fields[j].0 != k) ::
          k in r.value.context[0].fields && r.value.context[0].fields[k] == results[k])
  }

  /**
   * An embedded named aggregate over plain fields, packed from an enclosing document carrying its
   * fields and parsed from the same offset in the same byte order into an enclosing document under
   * construction, sets each field's key there to the value the packed document had, keeps every
   * other key of that document, and leaves the chain alone.
   */
  lemma {:induction false} EmbedNamedRoundTrip(s: Struct, source: Feed, region: seq<bool>, offset: nat, littleEndian: Option<bool>,
                                               packed: Ctx, results: map<string, Doc>, chain: Ctx)
    requires s.Embed? && s.inner.NamedAggregate? && PlainFields(s.inner.fields) && s.inner.tc.decode.None?
    requires |packed| > 0 && Carries(s.inner.fields, packed[0])
    requires offset + FieldStart(s.inner.fields, |s.inner.fields|) <= |region|
    ensures var p := PackSpec(s, source, PackOpts(Some(region), offset, littleEndian, packed));
      && p.Ok?
      && FieldsBack(ParseSpec(s, p.value.buffer, ParseOpts(offset, littleEndian, [Record(results)] + chain), Drop),
                    s.inner.fields, packed[0].fields, results, chain, p.value.size)
  {
    EmbedNamedPack(s, source, region, offset, littleEndian, packed);
    EmbeddedFieldsHold(PackSpec(s, source, PackOpts(Some(region), offset, littleEndian, packed)), s.inner.fields, source, packed[0],
                       region, offset, Endian(littleEndian, s.inner.tc.littleEndian));
    EmbedNamedParse(s, PackSpec(s, source, PackOpts(Some(region), offset, littleEndian, packed)).value.buffer,
                    offset, littleEndian, results, chain, Drop);
    FieldsBackFrom(ParseSpec(s, PackSpec(s, source, PackOpts(Some(region), offset, littleEndian, packed)).value.buffer,
                             ParseOpts(offset, littleEndian, [Record(results)] + chain), Drop),
                   s.inner.fields, PackSpec(s, source, PackOpts(Some(region), offset, littleEndian, packed)).value.buffer,
                   offset, Endian(littleEndian, s.inner.tc.littleEndian), packed[0].fields, results, chain,
                   PackSpec(s, source, PackOpts(Some(region), offset, littleEndian, packed)).value.size);
  }

  /** A packed embedding of a record carrying its fields leaves every field holding its number. */
  lemma {:induction false} EmbeddedFieldsHold(p: Result<Packed>, fields: seq<(string, Struct)>, source: Feed, encoded: Doc,
                                              region: seq<bool>, offset: nat, littleEndian: Option<bool>)
    requires PlainFields(fields) && Carries(fields, encoded) && NumbersUnder(fields, encoded)
    requires offset + FieldStart(fields, |fields|) <= |region|
    requires FieldsEmbedded(p, fields, source, encoded, region, offset, littleEndian)
    ensures p.Ok? && p.value.size == FieldStart(fields, |fields|) && offset + p.value.size <= |p.value.buffer|
    ensures forall j | 0 <= j < |fields| :: FieldHolds(fields, j, p.value.buffer, offset, littleEndian, encoded.fields)
  {
    assert p.Ok? by {
      forall j | 0 <= j < |fields|
        ensures fields[j].0 in encoded.fields
      {
      }
    }
  }

  /** The round trip's result from what the parse gives and what the fields hold. */
  lemma {:induction false} FieldsBackFrom(r: Result<Parsed>, fields: seq<(string, Struct)>, view: seq<bool>, offset: nat,
                                          littleEndian: Option<bool>, doc: map<string, Doc>, results: map<string, Doc>, chain: Ctx, size: nat)
    requires PlainFields(fields) && offset + FieldStart(fields, |fields|) <= |view| && size == FieldStart(fields, |fields|)
    requires forall j | 0 <= j < |fields| :: FieldHolds(fields, j, view, offset, littleEndian, doc)
    requires r == Ok(Parsed(Decoded([Record(results + ReadFields(fields, 0, view, offset, littleEndian))] + chain, None, chain), size,
                            [Record(results + ReadFields(fields, 0, view, offset, littleEndian))] + chain))
    ensures FieldsBack(r, fields, doc, results, chain, size)
  {
    ReadFieldsBack(fields, 0, view, offset, littleEndian, doc);
    var back := ReadFields(fields, 0, view, offset, littleEndian);
    var merged := results + back;
    assert ([Record(merged)] + chain)[1..] == chain;
    forall k | k in results && (forall j | 0 <= j < |fields| :: fields[j].0 != k)
      ensures k in merged && merged[k] == results[k]
    {
      assert k !in back;
    }
  }

  /**
   * What an embedded positional aggregate over plain items packing from the enclosing iterator,
   * which stands at element `first` of `values`, into a shared region gives: it succeeds exactly when
   * the iterator still holds an element for every item and fails with the iterator exhausted
   * otherwise; item `j` gets element `first + j` at `offset + ItemStart(j)`, the iterator moves past
   * the elements taken, and nothing outside the aggregate's bits changes.
   */
  predicate ItemsEmbedded(p: Result<Packed>, items: seq<Struct>, values: seq<Doc>, first: nat,
                          region: seq<bool>, offset: nat, littleEndian: Option<bool>)
    requires PlainItems(items) && Numbers(values)
  {
    && (p.Ok? <==> first + |items| <= |values|)
    && (p.Err? ==> p.error == InsufficientData)
    && (p.Ok? ==>
          && p.value.size == ItemStart(items, |items|) && p.value.feed == Cursor(values, first + |items|)
          && Outside(region, p.value.buffer, offset, offset + p.value.size)
          && forall j | 0 <= j < |items| ::
               Holds(p.value.buffer, offset + ItemStart(items, j), Encoded(items[j], values[first + j].n, littleEndian)))
  }

  /**
   * An embedded positional aggregate over plain items, packed into a shared region with room for
   * it, takes its elements from the enclosing iterator.
   */
  lemma {:induction false} EmbedPositionalPack(s: Struct, values: seq<Doc>, first: nat, region: seq<bool>, offset: nat,
                                               littleEndian: Option<bool>, context: Ctx)
    requires s.Embed? && s.inner.PositionalAggregate? && PlainItems(s.inner.items) && s.inner.tc.encode.None?
    requires Numbers(values) && first <= |values| && |context| > 0
    requires offset + ItemStart(s.inner.items, |s.inner.items|) <= |region|
    ensures ItemsEmbedded(PackSpec(s, Cursor(values, first), PackOpts(Some(region), offset, littleEndian, context)),
                          s.inner.items, values, first, region, offset, Endian(littleEndian, s.inner.tc.littleEndian))
  {
    PackPassPlain(s.inner, 0, context, offset, 0, first, Endian(littleEndian, s.inner.tc.littleEndian), PackAcc(Some(region), [], 0, Cursor(values, first)));
    EmbedPositionalBody(s, values, first, PackOpts(Some(region), offset, littleEndian, context),
                        PackPass(s.inner, 0, context, offset, Endian(littleEndian, s.inner.tc.littleEndian), PackAcc(Some(region), [], 0, Cursor(values, first))));
    ItemsEmbeddedFrom(PackSpec(s, Cursor(values, first), PackOpts(Some(region), offset, littleEndian, context)),
                      PackPass(s.inner, 0, context, offset, Endian(littleEndian, s.inner.tc.littleEndian), PackAcc(Some(region), [], 0, Cursor(values, first))),
                      s.inner.items, values, first, region, offset, Endian(littleEndian, s.inner.tc.littleEndian));
  }

  /** An embedded positional aggregate with a context makes its pass on the source it is handed. */
  lemma {:induction false} EmbedPositionalBody(s: Struct, values: seq<Doc>, first: nat, o: PackOpts, r: Result<PackAcc>)
    requires s.Embed? && s.inner.PositionalAggregate? && s.inner.tc.encode.None? && |o.context| > 0 && o.view.Some?
    requires r == PackPass(s.inner, 0, o.context, o.offset, Endian(o.littleEndian, s.inner.tc.littleEndian),
                           PackAcc(o.view, [], 0, Cursor(values, first)))
    ensures r.Ok? ==> r.value.view.Some?
    ensures PackSpec(s, Cursor(values, first), o)
      == if r.Ok? then Ok(Packed(r.value.view.value, r.value.offset, r.value.feed)) else Err(r.error)
  {
    var le := Endian(o.littleEndian, s.inner.tc.littleEndian);
    assert PackSpec(s, Cursor(values, first), o) == PackEmbed(s, Cursor(values, first), o);
    PassBody(s.inner, Cursor(values, first), o.context, o.context[1..], o.view.value, o.offset, le, r);
  }

  /** The embedding's result from its one pass's. */
  lemma {:induction false} ItemsEmbeddedFrom(p: Result<Packed>, r: Result<PackAcc>, items: seq<Struct>, values: seq<Doc>, first: nat,
                                             region: seq<bool>, offset: nat, littleEndian: Option<bool>)
    requires PlainItems(items) && Numbers(values)
    requires r.Ok? ==> r.value.view.Some?
    requires p == if r.Ok? then Ok(Packed(r.value.view.value, r.value.offset, r.value.feed)) else Err(r.error)
    requires ItemsPacked(r, items, 0, offset, 0, first, littleEndian, PackAcc(Some(region), [], 0, Cursor(values, first)))
    ensures ItemsEmbedded(p, items, values, first, region, offset, littleEndian)
  {
    if r.Ok? {
      forall j | 0 <= j < |items|
        ensures Holds(p.value.buffer, offset + ItemStart(items, j), Encoded(items[j], values[first + j].n, littleEndian))
      {
        assert offset + 0 + ItemStart(items, j) == offset + ItemStart(items, j);
      }
    }
  }

  /**
   * An embedded positional aggregate over plain items, parsed from a region holding all of them,
   * appends what every item reads, in order, to the enclosing list (the current document) and leaves
   * the rest of the chain alone; the caller's callback is not used, and a decoder sees the enclosing
   * list with its chain and the grandparent as context.
   */
  lemma {:induction false} EmbedPositionalParse(s: Struct, view: seq<bool>, offset: nat, littleEndian: Option<bool>,
                                                got: seq<Doc>, chain: Ctx, sink: Sink)
    requires s.Embed? && s.inner.PositionalAggregate? && PlainItems(s.inner.items)
    requires offset + ItemStart(s.inner.items, |s.inner.items|) <= |view|
    ensures var inner := s.inner;
      var merged := [List(got + ReadItems(inner.items, 0, view, offset, Endian(littleEndian, inner.tc.littleEndian)))] + chain;
      ParseSpec(s, view, ParseOpts(offset, littleEndian, [List(got)] + chain), sink)
        == Ok(Parsed(Decoded(merged, inner.tc.decode, chain), ItemStart(inner.items, |inner.items|), merged))
  {
    ParsePassPlain(s.inner, 0, view, offset, 0, Endian(littleEndian, s.inner.tc.littleEndian), got, chain, ParseAcc([List(got)] + chain, 0));
    EmbedPositionalParseBody(s, view, offset, littleEndian, List(got), chain, sink,
                             ParsePass(s.inner, 0, view, offset, Endian(littleEndian, s.inner.tc.littleEndian), ParseAcc([List(got)] + chain, 0)));
    AppendedFrom(ParseSpec(s, view, ParseOpts(offset, littleEndian, [List(got)] + chain), sink),
                 ParsePass(s.inner, 0, view, offset, Endian(littleEndian, s.inner.tc.littleEndian), ParseAcc([List(got)] + chain, 0)),
                 got, ReadItems(s.inner.items, 0, view, offset + 0, Endian(littleEndian, s.inner.tc.littleEndian)),
                 ReadItems(s.inner.items, 0, view, offset, Endian(littleEndian, s.inner.tc.littleEndian)),
                 chain, s.inner.tc.decode, ItemStart(s.inner.items, |s.inner.items|));
  }

  /** The embedding's result from its pass's, once the pass has appended `read` to the enclosing list. */
  lemma {:induction false} AppendedFrom(p: Result<Parsed>, r: Result<ParseAcc>, got: seq<Doc>, read: seq<Doc>, read': seq<Doc>,
                                        chain: Ctx, decode: Option<Decoder>, size: nat)
    requires read == read'
    requires r == Ok(ParseAcc([List(got + read)] + chain, 0 + size))
    requires r.Ok? ==> p == Ok(Parsed(Decoded(r.value.stack, decode, chain), r.value.offset, r.value.stack))
    ensures p == Ok(Parsed(Decoded([List(got + read')] + chain, decode, chain), size, [List(got + read')] + chain))
  {
  }

  /** An embedded positional aggregate with a context makes its pass on the enclosing list and delivers nowhere. */
  lemma {:induction false} EmbedPositionalParseBody(s: Struct, view: seq<bool>, offset: nat, littleEndian: Option<bool>,
                                                    current: Doc, chain: Ctx, sink: Sink, r: Result<ParseAcc>)
    requires s.Embed? && s.inner.PositionalAggregate?
    requires r == ParsePass(s.inner, 0, view, offset, Endian(littleEndian, s.inner.tc.littleEndian), ParseAcc([current] + chain, 0))
    ensures r.Ok? ==> |r.value.stack| > 0
    ensures r.Ok? ==> (ParseSpec(s, view, ParseOpts(offset, littleEndian, [current] + chain), sink)
      == Ok(Parsed(Decoded(r.value.stack, s.inner.tc.decode, chain), r.value.offset, r.value.stack)))
  {
    var o := ParseOpts(offset, littleEndian, [current] + chain);
    var le := Endian(littleEndian, s.inner.tc.littleEndian);
    assert o.context[1..] == chain;
    assert ParseSpec(s, view, o, sink) == ParseEmbed(s, view, o, sink);
    assert ParseLoop(s.inner, view, chain, offset, le, ParseAcc([current] + chain, 0)) == r;
  }

  /** Item `j` holds the encoding of element `first + j` of a list, a number of the item's range. */
  predicate TakenHolds(items: seq<Struct>, j: nat, view: seq<bool>, origin: nat, littleEndian: Option<bool>, values: seq<Doc>, first: nat)
    requires PlainItems(items) && j < |items|
  {
    && first + j < |values| && values[first + j].Number? && InRange(items[j].kind, values[first + j].n, items[j].width)
    && Holds(view, origin + ItemStart(items, j), Encoded(items[j], values[first + j].n, littleEndian))
  }

  /** Items holding the encodings of in-range elements `first` on of a list read back exactly those elements. */
  lemma {:induction false} TakenReadBack(items: seq<Struct>, values: seq<Doc>, first: nat, view: seq<bool>, origin: nat, littleEndian: Option<bool>)
    requires PlainItems(items) && first + |items| <= |values| && origin + ItemStart(items, |items|) <= |view|
    requires forall j | 0 <= j < |items| :: TakenHolds(items, j, view, origin, littleEndian, values, first)
    ensures ReadItems(items, 0, view, origin, littleEndian) == values[first..first + |items|]
  {
    var taken := values[first..first + |items|];
    forall j | 0 <= j < |items|
      ensures ItemHolds(items, j, view, origin, littleEndian, taken)
    {
      assert TakenHolds(items, j, view, origin, littleEndian, values, first);
      assert taken[j] == values[first + j];
    }
    ReadItemsBack(items, view, origin, littleEndian, taken);
  }

  /** A packed embedding whose elements are in range leaves every item holding its element. */
  lemma {:induction false} EmbeddedTaken(p: Result<Packed>, items: seq<Struct>, values: seq<Doc>, first: nat,
                                         region: seq<bool>, offset: nat, littleEndian: Option<bool>)
    requires PlainItems(items) && Numbers(values) && ItemsEmbedded(p, items, values, first, region, offset, littleEndian) && p.Ok?
    requires forall j | 0 <= j < |items| :: first + j < |values| && InRange(items[j].kind, values[first + j].n, items[j].width)
    ensures forall j | 0 <= j < |items| :: TakenHolds(items, j, p.value.buffer, offset, littleEndian, values, first)
  {
  }

  /**
   * An embedded positional aggregate over plain items, packed from the enclosing iterator and parsed
   * from the same offset in the same byte order, appends to the enclosing list exactly the elements
   * it took from the iterator, in order.
   */
  lemma {:induction false} EmbedPositionalRoundTrip(s: Struct, values: seq<Doc>, first: nat, region: seq<bool>, offset: nat,
                                                    littleEndian: Option<bool>, packed: Ctx, got: seq<Doc>, chain: Ctx)
    requires s.Embed? && s.inner.PositionalAggregate? && PlainItems(s.inner.items)
    requires s.inner.tc.encode.None? && s.inner.tc.decode.None?
    requires |packed| > 0 && first + |s.inner.items| <= |values|
    requires Numbers(values)
    requires forall j | 0 <= j < |s.inner.items| :: InRange(s.inner.items[j].kind, values[first + j].n, s.inner.items[j].width)
    requires offset + ItemStart(s.inner.items, |s.inner.items|) <= |region|
    ensures var p := PackSpec(s, Cursor(values, first), PackOpts(Some(region), offset, littleEndian, packed));
      && p.Ok?
      && ParseSpec(s, p.value.buffer, ParseOpts(offset, littleEndian, [List(got)] + chain), Drop)
           == Ok(Parsed(List(got + values[first..first + |s.inner.items|]), p.value.size,
                        [List(got + values[first..first + |s.inner.items|])] + chain))
  {
    EmbedPositionalPack(s, values, first, region, offset, littleEndian, packed);
    EmbeddedTaken(PackSpec(s, Cursor(values, first), PackOpts(Some(region), offset, littleEndian, packed)),
                  s.inner.items, values, first, region, offset, Endian(littleEndian, s.inner.tc.littleEndian));
    TakenReadBack(s.inner.items, values, first,
                  PackSpec(s, Cursor(values, first), PackOpts(Some(region), offset, littleEndian, packed)).value.buffer,
                  offset, Endian(littleEndian, s.inner.tc.littleEndian));
    EmbedPositionalParse(s, PackSpec(s, Cursor(values, first), PackOpts(Some(region), offset, littleEndian, packed)).value.buffer,
                         offset, littleEndian, got, chain, Drop);
    ItemsBackFrom(ParseSpec(s, PackSpec(s, Cursor(values, first), PackOpts(Some(region), offset, littleEndian, packed)).value.buffer,
                            ParseOpts(offset, littleEndian, [List(got)] + chain), Drop),
                  ReadItems(s.inner.items, 0, PackSpec(s, Cursor(values, first), PackOpts(Some(region), offset, littleEndian, packed)).value.buffer,
                            offset, Endian(littleEndian, s.inner.tc.littleEndian)),
                  values[first..first + |s.inner.items|], got, chain,
                  ItemStart(s.inner.items, |s.inner.items|),
                  PackSpec(s, Cursor(values, first), PackOpts(Some(region), offset, littleEndian, packed)).value.size);
  }

  /** The round trip's result from what the parse gives and what the items read back. */
  lemma {:induction false} ItemsBackFrom(r: Result<Parsed>, back: seq<Doc>, taken: seq<Doc>, got: seq<Doc>, chain: Ctx, end: nat, size: nat)
    requires back == taken && end == size
    requires r == Ok(Parsed(Decoded([List(got + back)] + chain, None, chain), end, [List(got + back)] + chain))
    ensures r == Ok(Parsed(List(got + taken), size, [List(got + taken)] + chain))
  {
  }
}
