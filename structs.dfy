/**
 * The components a format is declared from. Every variant satisfies the one Struct contract (a `pack`
 * and a `parse`); their meaning is given in module Transcode. The constructors here are the library's
 * builders: the primitive field factory, `Binary_Map`, `Binary_Array`, `Repeat` and `Branch`'s choice.
 */
module Structs {
  import opened Wrappers
  import opened Codec
  import opened Document

  /** Repeat's policy: a number of passes, a byte budget, or (an error at pack/parse time) neither. */
  datatype Policy = ByCount(count: Numeric) | ByBytes(budget: Numeric) | NoPolicy

  datatype Struct =
      /** A fixed-width numeric field delegating to the codec. */
    | Primitive(kind: Kind, width: nat, tc: Transcoders)
      /** Reserved bits: an optional fill generator for packing, an optional constant for parsing. */
    | Padding(bits: Numeric, fill: Option<Ctx -> int>, constant: Option<Ctx -> Doc>)
      /** `Byte_Buffer`: a verbatim byte span. */
    | ByteSpan(length: Numeric, tc: Transcoders)
      /** `Binary_Map`: named children building a keyed document. */
    | NamedAggregate(fields: seq<(string, Struct)>, tc: Transcoders)
      /** `Binary_Array`: anonymous children building a list document. */
    | PositionalAggregate(items: seq<Struct>, tc: Transcoders)
      /** `Repeat`: a positional aggregate whose single pass is driven by a policy. */
    | Repeat(policy: Policy, items: seq<Struct>, tc: Transcoders)
      /** Discriminant dispatch: `choices` holds the own properties of the choices object. */
    | Branch(chooser: Ctx -> string, choices: map<string, Struct>, fallback: Option<Struct>)
      /** Flattening of a nested aggregate into the enclosing document. */
    | Embed(inner: Struct)
      /** Something other than a Struct among an aggregate's children. */
    | NotStruct
  {
    /** `instanceof Array`: the aggregates built on `Binary_Array`. */
    predicate IsArray()
    {
      PositionalAggregate? || Repeat?
    }
  }

  /** The primitive field factory: a width outside the codec's permitted set fails at construction. */
  function Field(kind: Kind, width: nat, tc: Transcoders): (r: Result<Struct>)
    ensures r.Ok? <==> Permitted(kind, width)
    ensures r.Err? ==> r.error == InvalidSize(width)
    ensures r.Ok? ==> r.value.Primitive? && r.value.kind == kind && r.value.width == width && r.value.tc == tc
  {
    if Permitted(kind, width) then Ok(Primitive(kind, width, tc)) else Err(InvalidSize(width))
  }

  // ---- Binary_Map: `new Map(iterable)` ----

  function Keys(entries: seq<(string, Struct)>): (r: seq<string>)
    ensures |r| == |entries| && forall i :: 0 <= i < |entries| ==> r[i] == entries[i].0
  {
    seq(|entries|, i requires 0 <= i < |entries| => entries[i].0)
  }

  predicate DistinctKeys(entries: seq<(string, Struct)>)
  {
    forall i, j :: 0 <= i < j < |entries| ==> entries[i].0 != entries[j].0
  }

  /** `Map.prototype.set`: a present key keeps its position and takes the new value; a new key goes last. */
  function SetEntry(entries: seq<(string, Struct)>, key: string, value: Struct): (r: seq<(string, Struct)>)
    requires DistinctKeys(entries)
    ensures DistinctKeys(r)
    ensures key in Keys(r)
    ensures key in Keys(entries) ==> Keys(r) == Keys(entries)
    ensures key !in Keys(entries) ==> Keys(r) == Keys(entries) + [key]
    ensures forall i :: 0 <= i < |r| && r[i].0 != key ==> r[i] == entries[i]
    ensures forall i :: 0 <= i < |r| && r[i].0 == key ==> r[i].1 == value
  {
    if key in Keys(entries) then
      var i :| 0 <= i < |entries| && entries[i].0 == key;
      var r := entries[i := (key, value)];
      assert Keys(r)[i] == key;
      assert Keys(r) == Keys(entries);
      r
    else
      var r := entries + [(key, value)];
      assert Keys(r)[|entries|] == key;
      assert Keys(r) == Keys(entries) + [key];
      r
  }

  /** The entries of `new Map(entries)`, in iteration order. */
  function MapEntries(entries: seq<(string, Struct)>): (r: seq<(string, Struct)>)
    ensures DistinctKeys(r)
    ensures forall k :: k in Keys(r) <==> k in Keys(entries)
    decreases |entries|
  {
    if entries == [] then []
    else
      var init := MapEntries(entries[..|entries| - 1]);
      var last := entries[|entries| - 1];
      assert forall k :: k in Keys(entries) <==> k in Keys(entries[..|entries| - 1]) || k == last.0;
      SetEntry(init, last.0, last.1)
  }

  /** `Binary_Map(transcoders, iterable)`. */
  function MapOf(entries: seq<(string, Struct)>, tc: Transcoders): (r: Struct)
    ensures r.NamedAggregate? && r.tc == tc && r.fields == MapEntries(entries)
  {
    NamedAggregate(MapEntries(entries), tc)
  }

  // ---- Binary_Array and Repeat: `extract_array_options` ----

  datatype ArrayOptions = ArrayOptions(tc: Transcoders, count: Option<Numeric>, bytes: Option<Numeric>)

  /** An argument of `Binary_Array(...)` or `Repeat(...)`: a Struct, or an options object. */
  datatype Element = Item(s: Struct) | Options(options: ArrayOptions)

  const NoOptions := ArrayOptions(NoTranscoders, None, None)

  /** Take the options object off the front, or else off the back; otherwise there are none. */
  function ExtractArrayOptions(elements: seq<Element>): (r: (ArrayOptions, seq<Element>))
    ensures |elements| > 0 && elements[0].Options? ==> r == (elements[0].options, elements[1..])
    ensures |elements| > 0 && !elements[0].Options? && elements[|elements| - 1].Options? ==>
      r == (elements[|elements| - 1].options, elements[..|elements| - 1])
    ensures (|elements| == 0 || (!elements[0].Options? && !elements[|elements| - 1].Options?)) ==>
      r == (NoOptions, elements)
  {
    if |elements| > 0 && elements[0].Options? then (elements[0].options, elements[1..])
    else if |elements| > 0 && elements[|elements| - 1].Options? then
      (elements[|elements| - 1].options, elements[..|elements| - 1])
    else (NoOptions, elements)
  }

  /** The children an array holds: an element left over that is not a Struct fails when it is reached. */
  function Children(elements: seq<Element>): (r: seq<Struct>)
    ensures |r| == |elements|
    ensures forall i :: 0 <= i < |r| ==> if elements[i].Item? then r[i] == elements[i].s else r[i].NotStruct?
  {
    seq(|elements|, i requires 0 <= i < |elements| => if elements[i].Item? then elements[i].s else NotStruct)
  }

  /** `Binary_Array(...elements)`. */
  function ArrayOf(elements: seq<Element>): (r: Struct)
    ensures r.PositionalAggregate?
    ensures var (options, rest) := ExtractArrayOptions(elements); r.tc == options.tc && r.items == Children(rest)
  {
    var (options, rest) := ExtractArrayOptions(elements);
    PositionalAggregate(Children(rest), options.tc)
  }

  /** `Repeat(...elements)`: `count` takes precedence over `bytes`; neither is only an error once used. */
  function RepeatOf(elements: seq<Element>): (r: Struct)
    ensures r.Repeat?
    ensures var (options, rest) := ExtractArrayOptions(elements);
      && r.tc == options.tc && r.items == Children(rest)
      && (options.count.Some? ==> r.policy == ByCount(options.count.value))
      && (options.count.None? && options.bytes.Some? ==> r.policy == ByBytes(options.bytes.value))
      && (options.count.None? && options.bytes.None? ==> r.policy == NoPolicy)
  {
    var (options, rest) := ExtractArrayOptions(elements);
    var policy :=
      if options.count.Some? then ByCount(options.count.value)
      else if options.bytes.Some? then ByBytes(options.bytes.value)
      else NoPolicy;
    Repeat(policy, Children(rest), options.tc)
  }

  // ---- Branch ----

  /** `choose`: the choice under the discriminant's exact key, else the default, else an error. */
  function Choose(s: Struct, context: Ctx): (r: Result<Struct>)
    requires s.Branch?
    ensures var key := s.chooser(context);
      && (key in s.choices ==> r == Ok(s.choices[key]))
      && (key !in s.choices && s.fallback.Some? ==> r == Ok(s.fallback.value))
      && (key !in s.choices && s.fallback.None? ==> r == Err(UnknownChoice(key)))
  {
    var key := s.chooser(context);
    if key in s.choices then Ok(s.choices[key])
    else if s.fallback.Some? then Ok(s.fallback.value)
    else Err(UnknownChoice(key))
  }
}
