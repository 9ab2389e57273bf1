/**
 * `parse` as the source runs it: loops over a region it only reads, collecting results into the
 * current document of a context stack. Every method is proved to compute exactly the function of the
 * same name in module Transcode.
 */
module Parsing {
  import opened Wrappers
  import opened Codec
  import opened Document
  import opened Structs
  import opened Transcode

  /** `parse`. The leaves have no loop: their result is read straight off the region. */
  method Parse(s: Struct, view: array<bool>, o: ParseOpts, sink: Sink) returns (r: Result<Parsed>)
    ensures r == ParseSpec(s, view[..], o, sink)
    decreases s, 5, 0
  {
    match s
    case Primitive(_, _, _) => r := Transcode.ParsePrimitive(s, view[..], o, sink);
    case Padding(_, _, _) => r := Transcode.ParsePadding(s, o, sink);
    case ByteSpan(_, _) => r := Transcode.ParseByteSpan(s, view[..], o, sink);
    case NamedAggregate(_, _) => r := ParseNamed(s, view, o, sink);
    case PositionalAggregate(_, _) => r := ParsePositional(s, view, o, sink);
    case Repeat(_, _, _) => r := ParsePositional(s, view, o, sink);
    case Branch(_, _, _) => r := ParseBranch(s, view, o, sink);
    case Embed(_) => r := ParseEmbed(s, view, o, sink);
    case NotStruct => r := Err(NotAStruct);
  }

  /** `Binary_Map`'s `parse` without a `results` argument. */
  method ParseNamed(s: Struct, view: array<bool>, o: ParseOpts, sink: Sink) returns (r: Result<Parsed>)
    requires s.NamedAggregate?
    ensures r == Transcode.ParseNamed(s, view[..], o, sink)
    decreases s, 4, 0
  {
    var littleEndian := Endian(o.littleEndian, s.tc.littleEndian);
    var fields := ParseFieldsLoop(s, view, o.offset, littleEndian, ParseAcc(SetContext(Record(map[]), o.context), 0));
    if fields.Err? {
      return Err(fields.error);
    }
    var acc := fields.value;
    var delivered := DecodeAndDeliver(acc.stack, s.tc.decode, o.context, sink);
    if delivered.Err? {
      return Err(delivered.error);
    }
    return Ok(Parsed(delivered.value.0, acc.offset, delivered.value.1));
  }

  /** `Binary_Map`'s field loop: each field parses at the running offset and sets its key. */
  method ParseFieldsLoop(s: Struct, view: array<bool>, base: nat, littleEndian: Option<bool>, acc0: ParseAcc)
    returns (r: Result<ParseAcc>)
    requires s.NamedAggregate?
    ensures r == ParseFields(s, 0, view[..], base, littleEndian, acc0)
    decreases s, 3, 0
  {
    ghost var region := view[..];
    var acc := acc0;
    var i := 0;
    while i < |s.fields|
      invariant 0 <= i <= |s.fields|
      invariant ParseFields(s, i, region, base, littleEndian, acc) == ParseFields(s, 0, region, base, littleEndian, acc0)
    {
      var (key, child) := s.fields[i];
      var p := Parse(child, view, ParseOpts(base + acc.offset, littleEndian, acc.stack), SetKey(key));
      if p.Err? {
        return Err(p.error);
      }
      ParseFieldsNext(s, i, region, base, littleEndian, acc, p.value);
      acc := ParseAcc(p.value.context, acc.offset + p.value.size);
      i := i + 1;
    }
    return Ok(acc);
  }

  /** `Binary_Array`'s `parse` without a `results` argument. */
  method ParsePositional(s: Struct, view: array<bool>, o: ParseOpts, sink: Sink) returns (r: Result<Parsed>)
    requires s.IsArray()
    ensures r == Transcode.ParsePositional(s, view[..], o, sink)
    decreases s, 4, 0
  {
    var littleEndian := Endian(o.littleEndian, s.tc.littleEndian);
    var looped := ParseLoop(s, view, o.context, o.offset, littleEndian, ParseAcc(SetContext(List([]), o.context), 0));
    if looped.Err? {
      return Err(looped.error);
    }
    var acc := looped.value;
    var delivered := DecodeAndDeliver(RemoveContext(acc.stack, true), s.tc.decode, o.context, sink);
    if delivered.Err? {
      return Err(delivered.error);
    }
    return Ok(Parsed(delivered.value.0, acc.offset, delivered.value.1));
  }

  /** `__parse_loop`, with `Repeat`'s override: one pass, or passes by count, or passes by byte budget. */
  method ParseLoop(s: Struct, view: array<bool>, parent: Ctx, base: nat, littleEndian: Option<bool>, acc0: ParseAcc)
    returns (r: Result<ParseAcc>)
    requires s.IsArray()
    ensures r == Transcode.ParseLoop(s, view[..], parent, base, littleEndian, acc0)
    decreases s, 2, 1
  {
    if s.PositionalAggregate? {
      r := ParsePass(s, view, base, littleEndian, acc0);
      return;
    }
    match s.policy
    case NoPolicy =>
      return Err(NoRepeatPolicy);
    case ByCount(count) =>
      var resolved := Resolve(count, parent, InBytes);
      if resolved.Err? {
        return Err(resolved.error);
      }
      var passes := CeilBytes(resolved.value);
      var acc := acc0;
      var k := 0;
      while k < passes
        invariant 0 <= k <= passes
        invariant ParseCount(s, passes, k, view[..], base, littleEndian, acc) == ParseCount(s, passes, 0, view[..], base, littleEndian, acc0)
      {
        var pass := ParsePass(s, view, base, littleEndian, acc);
        if pass.Err? {
          return Err(pass.error);
        }
        acc := pass.value;
        k := k + 1;
      }
      return Ok(acc);
    case ByBytes(bytes) =>
      var resolved := Resolve(bytes, parent, InBytes);
      if resolved.Err? {
        return Err(resolved.error);
      }
      var budget := resolved.value;
      var acc := acc0;
      while acc.offset < budget
        invariant ParseBudget(s, budget, view[..], base, littleEndian, acc) == ParseBudget(s, budget, view[..], base, littleEndian, acc0)
        decreases budget - acc.offset
      {
        var pass := ParsePass(s, view, base, littleEndian, acc);
        if pass.Err? {
          return Err(pass.error);
        }
        if pass.value.offset == acc.offset {
          return Err(Diverges);
        }
        acc := pass.value;
      }
      if acc.offset > budget {
        return Err(Overrun(budget));
      }
      return Ok(acc);
  }

  /** One pass of `__parse_loop`: each item parses at the running offset and pushes onto the results. */
  method ParsePass(s: Struct, view: array<bool>, base: nat, littleEndian: Option<bool>, acc0: ParseAcc)
    returns (r: Result<ParseAcc>)
    requires s.IsArray()
    ensures r == Transcode.ParsePass(s, 0, view[..], base, littleEndian, acc0)
    decreases s, 1
  {
    var acc := acc0;
    var i := 0;
    while i < |s.items|
      invariant 0 <= i <= |s.items|
      invariant Transcode.ParsePass(s, i, view[..], base, littleEndian, acc) == Transcode.ParsePass(s, 0, view[..], base, littleEndian, acc0)
    {
      var q := ParseItem(s, i, view, base, littleEndian, acc);
      if q.Err? {
        return Err(q.error);
      }
      acc := q.value;
      i := i + 1;
    }
    return Ok(acc);
  }

  /** Item `i` of a pass parses at the running offset; the pass goes on from where it leaves off, or fails with it. */
  method ParseItem(s: Struct, i: nat, view: array<bool>, base: nat, littleEndian: Option<bool>, acc: ParseAcc)
    returns (r: Result<ParseAcc>)
    requires s.IsArray() && i < |s.items|
    ensures r.Err? ==> Transcode.ParsePass(s, i, view[..], base, littleEndian, acc) == Err(r.error)
    ensures r.Ok? ==> Transcode.ParsePass(s, i, view[..], base, littleEndian, acc) == Transcode.ParsePass(s, i + 1, view[..], base, littleEndian, r.value)
    decreases s, 0
  {
    var p := Parse(s.items[i], view, ParseOpts(base + acc.offset, littleEndian, acc.stack), Push);
    if p.Err? {
      return Err(p.error);
    }
    Transcode.ParsePassNext(s, i, view[..], base, littleEndian, acc, p.value);
    return Ok(ParseAcc(p.value.context, acc.offset + p.value.size));
  }

  /** `Branch`'s `parse`. */
  method ParseBranch(s: Struct, view: array<bool>, o: ParseOpts, sink: Sink) returns (r: Result<Parsed>)
    requires s.Branch?
    ensures r == Transcode.ParseBranch(s, view[..], o, sink)
    decreases s, 4, 0
  {
    var chosen := Choose(s, o.context);
    if chosen.Err? {
      return Err(chosen.error);
    }
    r := Parse(chosen.value, view, o, sink);
  }

  /** `Embed`'s `parse`: an aggregate inside collects into the enclosing results; anything else passes through. */
  method ParseEmbed(s: Struct, view: array<bool>, o: ParseOpts, sink: Sink) returns (r: Result<Parsed>)
    requires s.Embed?
    ensures r == Transcode.ParseEmbed(s, view[..], o, sink)
    decreases s, 4, 0
  {
    var inner := s.inner;
    if |o.context| > 0 && inner.NamedAggregate? {
      var fields := ParseFieldsLoop(inner, view, o.offset, Endian(o.littleEndian, inner.tc.littleEndian), ParseAcc(o.context, 0));
      if fields.Err? {
        return Err(fields.error);
      }
      var acc := fields.value;
      var data := Decoded(acc.stack, inner.tc.decode, o.context[1..]);
      return Ok(Parsed(data, acc.offset, acc.stack));
    } else if |o.context| > 0 && inner.IsArray() {
      var looped := ParseLoop(inner, view, o.context[1..], o.offset, Endian(o.littleEndian, inner.tc.littleEndian), ParseAcc(o.context, 0));
      if looped.Err? {
        return Err(looped.error);
      }
      var acc := looped.value;
      var data := Decoded(RemoveContext(acc.stack, false), inner.tc.decode, o.context[1..]);
      return Ok(Parsed(data, acc.offset, acc.stack));
    }
    r := Parse(inner, view, o, sink);
  }
}
