/**
 * Aggregates of plain numeric fields, the layouts the library exists to describe: where `pack` puts
 * each field, what `parse` reads back, and that the two are inverse. A plain field is a primitive
 * field with no encode or decode hook; its bits sit at the aggregate's offset plus the widths of the
 * fields before it.
 */
module Layouts {
  import opened Wrappers
  import opened Codec
  import opened Document
  import opened Structs
  import opened Transcode

  predicate Plain(c: Struct)
  {
    c.Primitive? && c.tc.encode.None? && c.tc.decode.None?
  }

  function WidthOf(c: Struct): nat
  {
    if c.Primitive? then c.width else 0
  }

  /** The bits a plain field writes for `n`, in the byte order its aggregate hands it. */
  function Encoded(c: Struct, n: int, littleEndian: Option<bool>): (r: seq<bool>)
    requires c.Primitive?
    ensures |r| == c.width
  {
    Serialize(c.kind, n, c.width, IsLittle(Endian(littleEndian, c.tc.littleEndian)))
  }

  /** The number a plain field reads at bit `at`. */
  function Read(c: Struct, view: seq<bool>, at: nat, littleEndian: Option<bool>): int
    requires c.Primitive? && at + c.width <= |view|
  {
    Deserialize(c.kind, view[at .. at + c.width], IsLittle(Endian(littleEndian, c.tc.littleEndian)))
  }

  /** The region is unchanged outside bits `[lo, hi)`. */
  predicate Outside(before: seq<bool>, after: seq<bool>, lo: nat, hi: nat)
  {
    |after| == |before| && forall p | 0 <= p < |before| && !(lo <= p < hi) :: after[p] == before[p]
  }

  /** The region holds `bits` at bit `at`. */
  predicate Holds(view: seq<bool>, at: nat, bits: seq<bool>)
  {
    at + |bits| <= |view| && view[at .. at + |bits|] == bits
  }

  /** Two updates to adjacent ranges are one update to their union. */
  lemma {:induction false} OutsideJoin(a: seq<bool>, b: seq<bool>, c: seq<bool>, lo: nat, mid: nat, hi: nat)
    requires lo <= mid <= hi && Outside(a, b, lo, mid) && Outside(b, c, mid, hi)
    ensures Outside(a, c, lo, hi)
  {
  }

  lemma {:induction false} SliceAgrees(a: seq<bool>, b: seq<bool>, lo: nat, hi: nat)
    requires |a| == |b| && lo <= hi <= |a|
    requires forall p | lo <= p < hi :: a[p] == b[p]
    ensures a[lo .. hi] == b[lo .. hi]
  {
    assert forall p | 0 <= p < hi - lo :: a[lo .. hi][p] == a[lo + p];
  }

  /** Writing `bits` at `at` and then changing only `[at + |bits|, end)` leaves `bits` in place. */
  lemma {:induction false} WriteThenKeep(view: seq<bool>, at: nat, bits: seq<bool>, after: seq<bool>, end: nat)
    requires at + |bits| <= end <= |view|
    requires Outside(Overwrite(view, at, bits), after, at + |bits|, end)
    ensures Holds(after, at, bits) && Outside(view, after, at, end)
  {
    var written := Overwrite(view, at, bits);
    assert Outside(view, written, at, at + |bits|);
    ReadBack(view, at, bits);
    SliceAgrees(after, written, at, at + |bits|);
    OutsideJoin(view, written, after, at, at + |bits|, end);
  }

  // ---- Binary_Map ----

  lemma {:induction false} PackIsNamed(s: Struct, source: Feed, o: PackOpts)
    requires s.NamedAggregate?
    ensures PackSpec(s, source, o) == PackNamed(s, source, o)
  {
  }

  lemma {:induction false} ParseIsNamed(s: Struct, view: seq<bool>, o: ParseOpts, sink: Sink)
    requires s.NamedAggregate?
    ensures ParseSpec(s, view, o, sink) == ParseNamed(s, view, o, sink)
  {
  }

  predicate PlainFields(fields: seq<(string, Struct)>)
  {
    forall j | 0 <= j < |fields| :: Plain(fields[j].1)
  }

  /** Where field `j` starts, relative to the aggregate: the widths of the fields before it. */
  function FieldStart(fields: seq<(string, Struct)>, j: nat): nat
    requires j <= |fields|
  {
    if j == 0 then 0 else FieldStart(fields, j - 1) + WidthOf(fields[j - 1].1)
  }

  /**
   * What the fields from `i` on read at `origin`: each key bound to its field's number, a later field
   * of the same key replacing an earlier one (it sets the key after it).
   */
  function ReadFields(fields: seq<(string, Struct)>, i: nat, view: seq<bool>, origin: nat, littleEndian: Option<bool>)
    : (r: map<string, Doc>)
    requires PlainFields(fields) && i <= |fields| && origin + FieldStart(fields, |fields|) <= |view|
    ensures forall k :: k in r <==> exists j | i <= j < |fields| :: fields[j].0 == k
    decreases |fields| - i
  {
    if i == |fields| then map[]
    else
      FieldWithin(fields, i);
      var (key, c) := fields[i];
      var rest := ReadFields(fields, i + 1, view, origin, littleEndian);
      map[key := Number(Read(c, view, origin + FieldStart(fields, i), littleEndian))] + rest
  }

  /** Field `i` lies before the end of the aggregate. */
  lemma {:induction false} FieldWithin(fields: seq<(string, Struct)>, i: nat)
    requires i < |fields|
    ensures FieldStart(fields, i) + WidthOf(fields[i].1) <= FieldStart(fields, |fields|)
    decreases |fields| - i
  {
    if i + 1 < |fields| {
      FieldWithin(fields, i + 1);
    }
  }

  /**
   * What the field loop over plain fields from `i` on does in a shared region: it succeeds exactly
   * when every key is present, failing on a missing one otherwise; field `j` gets the number under
   * its key at `base + FieldStart(j)`, and nothing outside the fields changes.
   */
  predicate FieldsPacked(r: Result<PackAcc>, fields: seq<(string, Struct)>, i: nat, encoded: Doc, base: nat, littleEndian: Option<bool>, acc: PackAcc)
    requires PlainFields(fields) && i <= |fields| && acc.view.Some? && encoded.Record?
  {
    && (r.Ok? <==> forall j | i <= j < |fields| :: fields[j].0 in encoded.fields)
    && (r.Err? ==> r.error.MissingField? && r.error.key !in encoded.fields)
    && (r.Ok? ==>
          && r.value.view.Some? && r.value.offset == FieldStart(fields, |fields|)
          && r.value.feed == acc.feed && r.value.frags == acc.frags
          && Outside(acc.view.value, r.value.view.value, base + acc.offset, base + FieldStart(fields, |fields|))
          && forall j | i <= j < |fields| && fields[j].0 in encoded.fields && encoded.fields[fields[j].0].Number? ::
               Holds(r.value.view.value, base + FieldStart(fields, j), Encoded(fields[j].1, encoded.fields[fields[j].0].n, littleEndian)))
  }

  /** The field loop over plain fields, in a shared region with room for all of them. */
  lemma {:induction false} PackFieldsPlain(s: Struct, i: nat, encoded: Doc, stack: Ctx, base: nat, littleEndian: Option<bool>, acc: PackAcc)
    requires s.NamedAggregate? && PlainFields(s.fields) && i <= |s.fields|
    requires acc.view.Some? && acc.offset == FieldStart(s.fields, i)
    requires base + FieldStart(s.fields, |s.fields|) <= |acc.view.value|
    requires encoded.Record? && forall j | i <= j < |s.fields| && s.fields[j].0 in encoded.fields :: encoded.fields[s.fields[j].0].Number?
    ensures FieldsPacked(PackFields(s, i, encoded, stack, base, littleEndian, acc), s.fields, i, encoded, base, littleEndian, acc)
    decreases |s.fields| - i
  {
    if i < |s.fields| {
      var (key, c) := s.fields[i];
      FieldWithin(s.fields, i);
      if key in encoded.fields {
        var bits := Encoded(c, encoded.fields[key].n, littleEndian);
        var next := PackAcc(Some(Overwrite(acc.view.value, base + acc.offset, bits)), acc.frags, acc.offset + c.width, acc.feed);
        PackFieldsPlain(s, i + 1, encoded, stack, base, littleEndian, next);
        var r := PackFields(s, i + 1, encoded, stack, base, littleEndian, next);
        PackFieldsCons(s, i, encoded, stack, base, littleEndian, acc, next, r);
      } else {
        PackFieldStep(s, i, encoded, stack, base, littleEndian, acc, acc);
      }
    } else {
      assert PackFields(s, i, encoded, stack, base, littleEndian, acc) == Ok(acc);
    }
  }

  /** A present field `i` of the loop followed by the loop over the fields after it. */
  lemma {:induction false} PackFieldsCons(s: Struct, i: nat, encoded: Doc, stack: Ctx, base: nat, littleEndian: Option<bool>, acc: PackAcc, next: PackAcc, r: Result<PackAcc>)
    requires s.NamedAggregate? && PlainFields(s.fields) && i < |s.fields|
    requires acc.view.Some? && acc.offset == FieldStart(s.fields, i)
    requires base + FieldStart(s.fields, |s.fields|) <= |acc.view.value|
    requires base + acc.offset + WidthOf(s.fields[i].1) <= |acc.view.value|
    requires encoded.Record? && s.fields[i].0 in encoded.fields && encoded.fields[s.fields[i].0].Number?
    requires next == PackAcc(Some(Overwrite(acc.view.value, base + acc.offset, Encoded(s.fields[i].1, encoded.fields[s.fields[i].0].n, littleEndian))),
                             acc.frags, acc.offset + s.fields[i].1.width, acc.feed)
    requires r == PackFields(s, i + 1, encoded, stack, base, littleEndian, next)
    requires FieldsPacked(r, s.fields, i + 1, encoded, base, littleEndian, next)
    ensures FieldsPacked(PackFields(s, i, encoded, stack, base, littleEndian, acc), s.fields, i, encoded, base, littleEndian, acc)
  {
    PackFieldStep(s, i, encoded, stack, base, littleEndian, acc, next);
    FieldsPackedStep(r, s.fields, i, encoded, base, littleEndian, acc, next);
  }

  /** Writing field `i`, then the fields after it, packs the fields from `i` on. */
  lemma {:induction false} FieldsPackedStep(r: Result<PackAcc>, fields: seq<(string, Struct)>, i: nat, encoded: Doc, base: nat, littleEndian: Option<bool>, acc: PackAcc, next: PackAcc)
    requires PlainFields(fields) && i < |fields| && acc.view.Some? && encoded.Record?
    requires acc.offset == FieldStart(fields, i) && base + FieldStart(fields, |fields|) <= |acc.view.value|
    requires fields[i].0 in encoded.fields && encoded.fields[fields[i].0].Number?
    requires base + acc.offset + WidthOf(fields[i].1) <= |acc.view.value|
    requires next.view == Some(Overwrite(acc.view.value, base + acc.offset, Encoded(fields[i].1, encoded.fields[fields[i].0].n, littleEndian)))
    requires next.frags == acc.frags && next.offset == acc.offset + fields[i].1.width && next.feed == acc.feed
    requires FieldsPacked(r, fields, i + 1, encoded, base, littleEndian, next)
    ensures FieldsPacked(r, fields, i, encoded, base, littleEndian, acc)
  {
    assert (forall j | i <= j < |fields| :: fields[j].0 in encoded.fields)
      <==> (forall j | i + 1 <= j < |fields| :: fields[j].0 in encoded.fields);
    if r.Ok? {
      FieldWithin(fields, i);
      FieldWritten(acc.view.value, r.value.view.value, fields, i, encoded, base, littleEndian);
    }
  }

  /**
   * Field `i` written over `view`, then the fields after it written with nothing else changed, leaves
   * every field from `i` on holding its number and nothing else changed.
   */
  lemma {:induction false} FieldWritten(view: seq<bool>, after: seq<bool>, fields: seq<(string, Struct)>, i: nat, encoded: Doc, base: nat,
                                        littleEndian: Option<bool>)
    requires PlainFields(fields) && i < |fields| && encoded.Record?
    requires fields[i].0 in encoded.fields && encoded.fields[fields[i].0].Number?
    requires base + FieldStart(fields, |fields|) <= |view|
    requires base + FieldStart(fields, i) + fields[i].1.width <= base + FieldStart(fields, |fields|)
    requires Outside(Overwrite(view, base + FieldStart(fields, i), Encoded(fields[i].1, encoded.fields[fields[i].0].n, littleEndian)), after,
                     base + FieldStart(fields, i) + fields[i].1.width, base + FieldStart(fields, |fields|))
    requires forall j | i + 1 <= j < |fields| && fields[j].0 in encoded.fields && encoded.fields[fields[j].0].Number? ::
               Holds(after, base + FieldStart(fields, j), Encoded(fields[j].1, encoded.fields[fields[j].0].n, littleEndian))
    ensures Outside(view, after, base + FieldStart(fields, i), base + FieldStart(fields, |fields|))
    ensures forall j | i <= j < |fields| && fields[j].0 in encoded.fields && encoded.fields[fields[j].0].Number? ::
               Holds(after, base + FieldStart(fields, j), Encoded(fields[j].1, encoded.fields[fields[j].0].n, littleEndian))
  {
    WriteThenKeep(view, base + FieldStart(fields, i), Encoded(fields[i].1, encoded.fields[fields[i].0].n, littleEndian),
                  after, base + FieldStart(fields, |fields|));
    FieldsHoldFrom(after, fields, i, encoded, base, littleEndian);
  }

  /** Field `i` holding its number, and every field after it too, is every field from `i` on. */
  lemma {:induction false} FieldsHoldFrom(view: seq<bool>, fields: seq<(string, Struct)>, i: nat, encoded: Doc, base: nat, littleEndian: Option<bool>)
    requires PlainFields(fields) && i < |fields| && encoded.Record?
    requires fields[i].0 in encoded.fields && encoded.fields[fields[i].0].Number?
    requires Holds(view, base + FieldStart(fields, i), Encoded(fields[i].1, encoded.fields[fields[i].0].n, littleEndian))
    requires forall j | i + 1 <= j < |fields| && fields[j].0 in encoded.fields && encoded.fields[fields[j].0].Number? ::
               Holds(view, base + FieldStart(fields, j), Encoded(fields[j].1, encoded.fields[fields[j].0].n, littleEndian))
    ensures forall j | i <= j < |fields| && fields[j].0 in encoded.fields && encoded.fields[fields[j].0].Number? ::
               Holds(view, base + FieldStart(fields, j), Encoded(fields[j].1, encoded.fields[fields[j].0].n, littleEndian))
  {
  }

  /** One field of the loop: a present key writes the field's number and moves on; a missing key fails. */
  lemma {:induction false} PackFieldStep(s: Struct, i: nat, encoded: Doc, stack: Ctx, base: nat, littleEndian: Option<bool>, acc: PackAcc, next: PackAcc)
    requires s.NamedAggregate? && PlainFields(s.fields) && i < |s.fields|
    requires acc.view.Some? && base + acc.offset + WidthOf(s.fields[i].1) <= |acc.view.value|
    requires encoded.Record? && (s.fields[i].0 in encoded.fields ==> encoded.fields[s.fields[i].0].Number?)
    requires s.fields[i].0 in encoded.fields ==>
      next == PackAcc(Some(Overwrite(acc.view.value, base + acc.offset, Encoded(s.fields[i].1, encoded.fields[s.fields[i].0].n, littleEndian))),
                      acc.frags, acc.offset + s.fields[i].1.width, acc.feed)
    ensures s.fields[i].0 !in encoded.fields ==>
      PackFields(s, i, encoded, stack, base, littleEndian, acc) == Err(MissingField(s.fields[i].0))
    ensures s.fields[i].0 in encoded.fields ==>
      PackFields(s, i, encoded, stack, base, littleEndian, acc) == PackFields(s, i + 1, encoded, stack, base, littleEndian, next)
  {
    var (key, c) := s.fields[i];
    if key in encoded.fields {
      assert PackSpec(c, Keyed(encoded, key), ChildOpts(acc, base, littleEndian, stack))
        == Ok(Packed(next.view.value, c.width, Keyed(encoded, key)));
    }
  }

  /**
   * The parse field loop over plain fields, with the region holding all of them: every field reads
   * its bits at `base + FieldStart(j)` and sets its key on the current results, which is all that
   * changes in the context.
   */
  lemma {:induction false} ParseFieldsPlain(s: Struct, i: nat, view: seq<bool>, base: nat, littleEndian: Option<bool>,
                                            results: map<string, Doc>, chain: Ctx, offset: nat, acc: ParseAcc)
    requires s.NamedAggregate? && PlainFields(s.fields) && i <= |s.fields|
    requires offset == FieldStart(s.fields, i) && base + FieldStart(s.fields, |s.fields|) <= |view|
    requires acc == ParseAcc([Record(results)] + chain, offset)
    ensures ParseFields(s, i, view, base, littleEndian, acc)
      == Ok(ParseAcc([Record(results + ReadFields(s.fields, i, view, base, littleEndian))] + chain, FieldStart(s.fields, |s.fields|)))
    decreases |s.fields| - i
  {
    if i < |s.fields| {
      FieldWithin(s.fields, i);
      var key := s.fields[i].0;
      var raw := Number(Read(s.fields[i].1, view, base + offset, littleEndian));
      var next := ParseAcc([Record(results[key := raw])] + chain, offset + s.fields[i].1.width);
      ParseFieldsPlain(s, i + 1, view, base, littleEndian, results[key := raw], chain, offset + s.fields[i].1.width, next);
      ParseFieldsCons(s, i, view, base, littleEndian, results, chain, offset, acc, key, raw, next);
    } else {
      ParseFieldsEnd(s, i, view, base, littleEndian, results, chain, offset, acc);
    }
  }

  /** Field `i` of the parse loop followed by the loop over the fields after it. */
  lemma {:induction false} ParseFieldsCons(s: Struct, i: nat, view: seq<bool>, base: nat, littleEndian: Option<bool>,
                                           results: map<string, Doc>, chain: Ctx, offset: nat, acc: ParseAcc,
                                           key: string, raw: Doc, next: ParseAcc)
    requires s.NamedAggregate? && PlainFields(s.fields) && i < |s.fields|
    requires offset == FieldStart(s.fields, i) && base + FieldStart(s.fields, |s.fields|) <= |view|
    requires acc == ParseAcc([Record(results)] + chain, offset)
    requires offset + WidthOf(s.fields[i].1) <= FieldStart(s.fields, |s.fields|)
    requires key == s.fields[i].0 && raw == Number(Read(s.fields[i].1, view, base + offset, littleEndian))
    requires next == ParseAcc([Record(results[key := raw])] + chain, offset + s.fields[i].1.width)
    requires ParseFields(s, i + 1, view, base, littleEndian, next)
      == Ok(ParseAcc([Record(results[key := raw] + ReadFields(s.fields, i + 1, view, base, littleEndian))] + chain, FieldStart(s.fields, |s.fields|)))
    ensures ParseFields(s, i, view, base, littleEndian, acc)
      == Ok(ParseAcc([Record(results + ReadFields(s.fields, i, view, base, littleEndian))] + chain, FieldStart(s.fields, |s.fields|)))
  {
    FieldWithin(s.fields, i);
    ParseFieldStep(s, i, view, base, littleEndian, results, chain, offset, acc, raw, next);
    var later := ReadFields(s.fields, i + 1, view, base, littleEndian);
    ReadFieldsStep(s.fields, i, view, base, littleEndian, raw);
    SetThenMerge(results, key, raw, later);
    ParsedAfter(ParseFields(s, i, view, base, littleEndian, acc), ParseFields(s, i + 1, view, base, littleEndian, next),
                results, chain, FieldStart(s.fields, |s.fields|), key, raw, later, ReadFields(s.fields, i, view, base, littleEndian));
  }

  /** Past the last field the loop returns its state, and nothing is left to read. */
  lemma {:induction false} ParseFieldsEnd(s: Struct, i: nat, view: seq<bool>, base: nat, littleEndian: Option<bool>,
                                          results: map<string, Doc>, chain: Ctx, offset: nat, acc: ParseAcc)
    requires s.NamedAggregate? && PlainFields(s.fields) && i == |s.fields|
    requires offset == FieldStart(s.fields, i) && base + FieldStart(s.fields, |s.fields|) <= |view|
    requires acc == ParseAcc([Record(results)] + chain, offset)
    ensures ParseFields(s, i, view, base, littleEndian, acc)
      == Ok(ParseAcc([Record(results + ReadFields(s.fields, i, view, base, littleEndian))] + chain, FieldStart(s.fields, |s.fields|)))
  {
    assert results + map[] == results;
  }

  /** One field of the parse loop: the field's number set under its key on the current results. */
  lemma {:induction false} ParseFieldStep(s: Struct, i: nat, view: seq<bool>, base: nat, littleEndian: Option<bool>,
                                          results: map<string, Doc>, chain: Ctx, offset: nat, acc: ParseAcc, raw: Doc, next: ParseAcc)
    requires s.NamedAggregate? && PlainFields(s.fields) && i < |s.fields|
    requires acc == ParseAcc([Record(results)] + chain, offset)
    requires base + offset + WidthOf(s.fields[i].1) <= |view|
    requires raw == Number(Read(s.fields[i].1, view, base + offset, littleEndian))
    requires next == ParseAcc([Record(results[s.fields[i].0 := raw])] + chain, offset + s.fields[i].1.width)
    ensures ParseFields(s, i, view, base, littleEndian, acc) == ParseFields(s, i + 1, view, base, littleEndian, next)
  {
    FieldParsed(s.fields[i].1, s.fields[i].0, view, base + offset, littleEndian, results, chain, raw);
    ParseFieldsNext(s, i, view, base, littleEndian, acc, Parsed(raw, s.fields[i].1.width, [Record(results[s.fields[i].0 := raw])] + chain));
  }

  /** A plain field parsed into the current results sets its number under its key. */
  lemma {:induction false} FieldParsed(c: Struct, key: string, view: seq<bool>, at: nat, littleEndian: Option<bool>,
                                       results: map<string, Doc>, chain: Ctx, raw: Doc)
    requires Plain(c) && at + c.width <= |view|
    requires raw == Number(Read(c, view, at, littleEndian))
    ensures ParseSpec(c, view, ParseOpts(at, littleEndian, [Record(results)] + chain), SetKey(key))
      == Ok(Parsed(raw, c.width, [Record(results[key := raw])] + chain))
  {
    assert ([Record(results)] + chain)[1..] == chain;
  }

  /** What field `i` reads, then what the fields after it read. */
  lemma {:induction false} ReadFieldsStep(fields: seq<(string, Struct)>, i: nat, view: seq<bool>, origin: nat, littleEndian: Option<bool>, raw: Doc)
    requires PlainFields(fields) && i < |fields| && origin + FieldStart(fields, |fields|) <= |view|
    requires FieldStart(fields, i) + WidthOf(fields[i].1) <= FieldStart(fields, |fields|)
    requires raw == Number(Read(fields[i].1, view, origin + FieldStart(fields, i), littleEndian))
    ensures ReadFields(fields, i, view, origin, littleEndian) == map[fields[i].0 := raw] + ReadFields(fields, i + 1, view, origin, littleEndian)
  {
  }

  /** The field loop's result, from the result after field `i` and what field `i` read. */
  lemma {:induction false} ParsedAfter(here: Result<ParseAcc>, after: Result<ParseAcc>, results: map<string, Doc>, chain: Ctx, end: nat,
                                       key: string, raw: Doc, later: map<string, Doc>, all: map<string, Doc>)
    requires here == after
    requires after == Ok(ParseAcc([Record(results[key := raw] + later)] + chain, end))
    requires all == map[key := raw] + later
    requires results[key := raw] + later == results + (map[key := raw] + later)
    ensures here == Ok(ParseAcc([Record(results + all)] + chain, end))
  {
  }

  lemma {:induction false} SetThenMerge(m: map<string, Doc>, key: string, v: Doc, later: map<string, Doc>)
    ensures m[key := v] + later == m + (map[key := v] + later)
  {
  }

  /**
   * Reading back fields that hold the encodings of in-range numbers gives those numbers, under the
   * fields' keys.
   */
  lemma {:induction false} ReadFieldsBack(fields: seq<(string, Struct)>, i: nat, view: seq<bool>, origin: nat, littleEndian: Option<bool>, doc: map<string, Doc>)
    requires PlainFields(fields) && i <= |fields| && origin + FieldStart(fields, |fields|) <= |view|
    requires forall j | i <= j < |fields| :: FieldHolds(fields, j, view, origin, littleEndian, doc)
    ensures forall j | i <= j < |fields| ::
      fields[j].0 in doc && ReadFields(fields, i, view, origin, littleEndian)[fields[j].0] == doc[fields[j].0]
    decreases |fields| - i
  {
    if i < |fields| {
      var key := fields[i].0;
      ReadFieldsBack(fields, i + 1, view, origin, littleEndian, doc);
      FieldReadsBack(fields, i, view, origin, littleEndian, doc);
      var later := ReadFields(fields, i + 1, view, origin, littleEndian);
      var all := ReadFields(fields, i, view, origin, littleEndian);
      assert all == map[key := doc[key]] + later;
      forall j | i <= j < |fields|
        ensures fields[j].0 in doc && all[fields[j].0] == doc[fields[j].0]
      {
        if j > i {
          assert fields[j].0 in later;
        }
      }
    }
  }

  /** One field holding the encoding of an in-range number reads back that number. */
  lemma {:induction false} FieldReadsBack(fields: seq<(string, Struct)>, i: nat, view: seq<bool>, origin: nat, littleEndian: Option<bool>, doc: map<string, Doc>)
    requires PlainFields(fields) && i < |fields| && origin + FieldStart(fields, |fields|) <= |view|
    requires FieldHolds(fields, i, view, origin, littleEndian, doc)
    ensures FieldStart(fields, i) + WidthOf(fields[i].1) <= FieldStart(fields, |fields|)
    ensures fields[i].0 in doc && Number(Read(fields[i].1, view, origin + FieldStart(fields, i), littleEndian)) == doc[fields[i].0]
  {
    FieldWithin(fields, i);
    EncodedReadsBack(fields[i].1, view, origin + FieldStart(fields, i), doc[fields[i].0].n, littleEndian);
  }

  /** A plain Struct's bits holding the encoding of an in-range number read back that number. */
  lemma {:induction false} EncodedReadsBack(c: Struct, view: seq<bool>, at: nat, n: int, littleEndian: Option<bool>)
    requires Plain(c) && InRange(c.kind, n, c.width) && Holds(view, at, Encoded(c, n, littleEndian))
    ensures at + c.width <= |view| && Read(c, view, at, littleEndian) == n
  {
    CodecRoundTrip(c.kind, n, c.width, IsLittle(Endian(littleEndian, c.tc.littleEndian)));
    ReadOfBits(c, view, at, Encoded(c, n, littleEndian), littleEndian);
  }

  /** What a primitive reads is what its byte order makes of the bits it covers. */
  lemma {:induction false} ReadOfBits(c: Struct, view: seq<bool>, at: nat, bits: seq<bool>, littleEndian: Option<bool>)
    requires c.Primitive? && |bits| == c.width && Holds(view, at, bits)
    ensures at + c.width <= |view| && Read(c, view, at, littleEndian) == Deserialize(c.kind, bits, IsLittle(Endian(littleEndian, c.tc.littleEndian)))
  {
  }

  /** Field `j` holds the encoding of the in-range number `doc` has under its key. */
  predicate FieldHolds(fields: seq<(string, Struct)>, j: nat, view: seq<bool>, origin: nat, littleEndian: Option<bool>, doc: map<string, Doc>)
    requires PlainFields(fields) && j < |fields|
  {
    var (key, c) := fields[j];
    && key in doc && doc[key].Number? && InRange(c.kind, doc[key].n, c.width)
    && Holds(view, origin + FieldStart(fields, j), Encoded(c, doc[key].n, littleEndian))
  }

  /** The document a named aggregate packs: exactly its keys, each bound to an in-range number. */
  predicate Fits(fields: seq<(string, Struct)>, doc: Doc)
    requires PlainFields(fields)
  {
    && doc.Record?
    && (forall k :: k in doc.fields ==> exists j | 0 <= j < |fields| :: fields[j].0 == k)
    && forall j | 0 <= j < |fields| ::
         fields[j].0 in doc.fields && doc.fields[fields[j].0].Number?
         && InRange(fields[j].1.kind, doc.fields[fields[j].0].n, fields[j].1.width)
  }

  /**
   * What `Binary_Map` over plain fields packing a fitting record into a shared region gives: the
   * size is the sum of the fields' widths, the source is read once, field `j` holds the number under
   * its key at `offset + FieldStart(j)`, and nothing outside the aggregate's bits changes.
   */
  predicate NamedPacked(p: Result<Packed>, fields: seq<(string, Struct)>, encoded: Doc, region: seq<bool>, offset: nat, littleEndian: Option<bool>)
    requires PlainFields(fields) && Fits(fields, encoded)
  {
    && p.Ok? && p.value.size == FieldStart(fields, |fields|) && p.value.feed == Given(encoded)
    && Outside(region, p.value.buffer, offset, offset + p.value.size)
    && forall j | 0 <= j < |fields| :: FieldHolds(fields, j, p.value.buffer, offset, littleEndian, encoded.fields)
  }

  /** `Binary_Map` packing a record into a shared region, in the source's order. */
  lemma {:induction false} NamedPack(s: Struct, encoded: Doc, region: seq<bool>, offset: nat, littleEndian: Option<bool>, context: Ctx)
    requires s.NamedAggregate? && PlainFields(s.fields) && s.tc.encode.None?
    requires Fits(s.fields, encoded)
    requires offset + FieldStart(s.fields, |s.fields|) <= |region|
    ensures NamedPacked(PackSpec(s, Given(encoded), PackOpts(Some(region), offset, littleEndian, context)),
                        s.fields, encoded, region, offset, Endian(littleEndian, s.tc.littleEndian))
  {
    PackFieldsPlain(s, 0, encoded, SetContext(encoded, context), offset, Endian(littleEndian, s.tc.littleEndian), PackAcc(Some(region), [], 0, Given(Null)));
    NamedPackBody(s, encoded, PackOpts(Some(region), offset, littleEndian, context),
                  PackFields(s, 0, encoded, SetContext(encoded, context), offset, Endian(littleEndian, s.tc.littleEndian), PackAcc(Some(region), [], 0, Given(Null))));
    NamedPackedFrom(PackSpec(s, Given(encoded), PackOpts(Some(region), offset, littleEndian, context)),
                    PackFields(s, 0, encoded, SetContext(encoded, context), offset, Endian(littleEndian, s.tc.littleEndian), PackAcc(Some(region), [], 0, Given(Null))),
                    s.fields, encoded, region, offset, Endian(littleEndian, s.tc.littleEndian));
  }

  /**
   * `Binary_Map` over plain fields packing any record of numbers into a shared region with room: it
   * succeeds exactly when every declared key is present (keys it does not declare are ignored), and
   * otherwise throws `MissingField` for a key the record lacks.
   */
  lemma {:induction false} NamedPackKeys(s: Struct, encoded: Doc, region: seq<bool>, offset: nat, littleEndian: Option<bool>, context: Ctx)
    requires s.NamedAggregate? && PlainFields(s.fields) && s.tc.encode.None?
    requires encoded.Record? && forall j | 0 <= j < |s.fields| && s.fields[j].0 in encoded.fields :: encoded.fields[s.fields[j].0].Number?
    requires offset + FieldStart(s.fields, |s.fields|) <= |region|
    ensures var p := PackSpec(s, Given(encoded), PackOpts(Some(region), offset, littleEndian, context));
      && (p.Ok? <==> forall j | 0 <= j < |s.fields| :: s.fields[j].0 in encoded.fields)
      && (p.Err? ==> p.error.MissingField? && p.error.key !in encoded.fields)
  {
    var le := Endian(littleEndian, s.tc.littleEndian);
    var start := PackAcc(Some(region), [], 0, Given(Null));
    PackFieldsPlain(s, 0, encoded, SetContext(encoded, context), offset, le, start);
    NamedPackBody(s, encoded, PackOpts(Some(region), offset, littleEndian, context),
                  PackFields(s, 0, encoded, SetContext(encoded, context), offset, le, start));
  }

  /** `Binary_Map` without an encoder, given a record into a shared region, is its field loop. */
  lemma {:induction false} NamedPackBody(s: Struct, encoded: Doc, o: PackOpts, r: Result<PackAcc>)
    requires s.NamedAggregate? && s.tc.encode.None? && o.view.Some?
    requires r == PackFields(s, 0, encoded, SetContext(encoded, o.context), o.offset, Endian(o.littleEndian, s.tc.littleEndian),
                             PackAcc(o.view, [], 0, Given(Null)))
    ensures r.Ok? ==> r.value.view.Some?
    ensures PackSpec(s, Given(encoded), o) == if r.Ok? then Ok(Packed(r.value.view.value, r.value.offset, Given(encoded))) else Err(r.error)
  {
    var le := Endian(o.littleEndian, s.tc.littleEndian);
    PackIsNamed(s, Given(encoded), o);
    assert FetchAndEncode(Given(encoded), s.tc.encode, o.context) == Ok((encoded, Given(encoded)));
    if r.Ok? {
      assert PackFieldsBody(s, encoded, SetContext(encoded, o.context), o.view, o.offset, le) == Ok((r.value.view.value, r.value.offset));
    } else {
      assert PackFieldsBody(s, encoded, SetContext(encoded, o.context), o.view, o.offset, le) == Err(r.error);
    }
  }

  /** The aggregate's result from its field loop's, for a fitting record. */
  lemma {:induction false} NamedPackedFrom(p: Result<Packed>, r: Result<PackAcc>, fields: seq<(string, Struct)>, encoded: Doc,
                                           region: seq<bool>, offset: nat, littleEndian: Option<bool>)
    requires PlainFields(fields) && Fits(fields, encoded)
    requires r.Ok? ==> r.value.view.Some?
    requires p == if r.Ok? then Ok(Packed(r.value.view.value, r.value.offset, Given(encoded))) else Err(r.error)
    requires FieldsPacked(r, fields, 0, encoded, offset, littleEndian, PackAcc(Some(region), [], 0, Given(Null)))
    ensures NamedPacked(p, fields, encoded, region, offset, littleEndian)
  {
    assert forall j | 0 <= j < |fields| :: fields[j].0 in encoded.fields;
    assert offset + 0 == offset;
    forall j | 0 <= j < |fields|
      ensures FieldHolds(fields, j, p.value.buffer, offset, littleEndian, encoded.fields)
    {
      assert fields[j].0 in encoded.fields && encoded.fields[fields[j].0].Number?;
    }
  }

  /**
   * `Binary_Map`'s parse over plain fields, with the region holding all of them: the size is the sum
   * of the widths, the record holds what every field reads under its key, and a decoder sees that
   * record with the enclosing context still attached (the back-reference is removed after decoding).
   */
  lemma {:induction false} NamedParse(s: Struct, view: seq<bool>, offset: nat, littleEndian: Option<bool>, context: Ctx)
    requires s.NamedAggregate? && PlainFields(s.fields)
    requires offset + FieldStart(s.fields, |s.fields|) <= |view|
    ensures var values := Record(ReadFields(s.fields, 0, view, offset, Endian(littleEndian, s.tc.littleEndian)));
      ParseSpec(s, view, ParseOpts(offset, littleEndian, context), Drop)
        == Ok(Parsed(if s.tc.decode.Some? then s.tc.decode.value([values] + context, context) else values,
                     FieldStart(s.fields, |s.fields|), context))
  {
    ParseFieldsPlain(s, 0, view, offset, Endian(littleEndian, s.tc.littleEndian), map[], context, 0, ParseAcc([Record(map[])] + context, 0));
    NamedParseBody(s, view, ParseOpts(offset, littleEndian, context),
                   ParseFields(s, 0, view, offset, Endian(littleEndian, s.tc.littleEndian), ParseAcc([Record(map[])] + context, 0)));
    assert map[] + ReadFields(s.fields, 0, view, offset, Endian(littleEndian, s.tc.littleEndian))
      == ReadFields(s.fields, 0, view, offset, Endian(littleEndian, s.tc.littleEndian));
  }

  /** `Binary_Map`'s parse delivering nowhere: its field loop on a fresh record, then the decoder over what it leaves. */
  lemma {:induction false} NamedParseBody(s: Struct, view: seq<bool>, o: ParseOpts, r: Result<ParseAcc>)
    requires s.NamedAggregate?
    requires r == ParseFields(s, 0, view, o.offset, Endian(o.littleEndian, s.tc.littleEndian), ParseAcc([Record(map[])] + o.context, 0))
    ensures r.Ok? ==> |r.value.stack| > 0
    ensures r.Ok? ==> ParseSpec(s, view, o, Drop) == Ok(Parsed(Decoded(r.value.stack, s.tc.decode, o.context), r.value.offset, o.context))
  {
    ParseIsNamed(s, view, o, Drop);
  }

  /**
   * `Binary_Map` over plain fields, packed into a shared region with room for it and parsed from the
   * same offset in the same byte order, gives the record back.
   */
  lemma {:induction false} NamedRoundTrip(s: Struct, encoded: Doc, region: seq<bool>, offset: nat, littleEndian: Option<bool>, context: Ctx)
    requires s.NamedAggregate? && PlainFields(s.fields) && s.tc.encode.None? && s.tc.decode.None?
    requires Fits(s.fields, encoded)
    requires offset + FieldStart(s.fields, |s.fields|) <= |region|
    ensures var p := PackSpec(s, Given(encoded), PackOpts(Some(region), offset, littleEndian, context));
      && p.Ok?
      && ParseSpec(s, p.value.buffer, ParseOpts(offset, littleEndian, context), Drop)
           == Ok(Parsed(encoded, p.value.size, context))
  {
    var le := Endian(littleEndian, s.tc.littleEndian);
    NamedPack(s, encoded, region, offset, littleEndian, context);
    var packed := PackSpec(s, Given(encoded), PackOpts(Some(region), offset, littleEndian, context)).value.buffer;
    NamedParse(s, packed, offset, littleEndian, context);
    ReadFieldsAll(s.fields, packed, offset, le, encoded);
  }

  /** Fields that hold the encodings of a fitting record's numbers read back exactly that record. */
  lemma {:induction false} ReadFieldsAll(fields: seq<(string, Struct)>, view: seq<bool>, origin: nat, littleEndian: Option<bool>, doc: Doc)
    requires PlainFields(fields) && Fits(fields, doc) && origin + FieldStart(fields, |fields|) <= |view|
    requires forall j | 0 <= j < |fields| :: FieldHolds(fields, j, view, origin, littleEndian, doc.fields)
    ensures ReadFields(fields, 0, view, origin, littleEndian) == doc.fields
  {
    ReadFieldsBack(fields, 0, view, origin, littleEndian, doc.fields);
    SameKeysSameMap(fields, ReadFields(fields, 0, view, origin, littleEndian), doc.fields);
  }

  /** Two maps whose keys are exactly the fields' keys, and which agree on each of them, are equal. */
  lemma {:induction false} SameKeysSameMap(fields: seq<(string, Struct)>, back: map<string, Doc>, doc: map<string, Doc>)
    requires forall k :: k in back <==> exists j | 0 <= j < |fields| :: fields[j].0 == k
    requires forall k :: k in doc ==> exists j | 0 <= j < |fields| :: fields[j].0 == k
    requires forall j | 0 <= j < |fields| :: fields[j].0 in doc && back[fields[j].0] == doc[fields[j].0]
    ensures back == doc
  {
    forall k | k in doc
      ensures k in back && back[k] == doc[k]
    {
      var j :| 0 <= j < |fields| && fields[j].0 == k;
    }
  }
}
