/**
 * The documents the engine packs and parses, the context stack that gives a field upward access to the
 * documents enclosing it, and the small helpers every component shares: the fetcher a container hands
 * to a child while packing, the deliver callback it hands to a child while parsing, the size resolver
 * `numeric`, and the encode/decode hooks.
 */
module Document {
  import opened Wrappers
  import opened Codec

  /** A decoded value: a number, text, a byte buffer, a keyed document (a `Map`) or a list document. */
  datatype Doc =
    | Null
    | Number(n: int)
    | Text(text: string)
    | Buffer(bytes: seq<Byte>)
    | Record(fields: map<string, Doc>)
    | List(items: seq<Doc>)

  /**
   * The context a field sees: element 0 is the document under construction, element 1 the document
   * its `Parent` back-reference points to, and so on up. The empty stack is "no context".
   */
  type Ctx = seq<Doc>

  /** `set_context`: the new document becomes the current one, its back-reference the old context. */
  function SetContext(data: Doc, context: Ctx): (r: Ctx)
    ensures |r| == |context| + 1 && r[0] == data && r[1..] == context
  {
    [data] + context
  }

  /**
   * `remove_context`: the document as a decode hook or a caller sees it, given as the document followed
   * by the back-references still attached to it. With the flag set the back-reference is deleted.
   */
  function RemoveContext(attached: Ctx, deleteFlag: bool): (r: Ctx)
    requires |attached| > 0
    ensures |r| > 0 && r[0] == attached[0]
    ensures deleteFlag ==> r == [attached[0]]
    ensures !deleteFlag ==> r == attached
  {
    if deleteFlag then attached[..1] else attached
  }

  /** A user hook turning a decoded value into its encoded form, given the context. */
  type Encoder = (Doc, Ctx) -> Doc

  /** A user hook turning an encoded value, with the back-references attached to it, into a decoded value. */
  type Decoder = (Ctx, Ctx) -> Doc

  datatype Transcoders = Transcoders(encode: Option<Encoder>, decode: Option<Decoder>, littleEndian: Option<bool>)

  const NoTranscoders := Transcoders(None, None, None)

  /**
   * Where a packing child gets its value from: a plain value, the map fetcher of a named aggregate
   * (look the key up on every call), or the iterator of a positional aggregate (one element per call).
   */
  datatype Feed =
    | Given(value: Doc)
    | Keyed(doc: Doc, key: string)
    | Cursor(items: seq<Doc>, next: nat)

  /** One call of the fetcher: the value and the fetcher's state afterwards. */
  function Fetch(f: Feed): (r: Result<(Doc, Feed)>)
    ensures f.Given? ==> r == Ok((f.value, f))
    ensures f.Keyed? && f.doc.Record? ==>
      (f.key in f.doc.fields <==> r.Ok?) && (r.Ok? ==> r.value == (f.doc.fields[f.key], f))
    ensures f.Keyed? && !f.doc.Record? ==> r == Err(WrongShape)
    ensures f.Cursor? ==> (f.next < |f.items| <==> r.Ok?)
    ensures f.Cursor? && r.Ok? ==> r.value == (f.items[f.next], Cursor(f.items, f.next + 1))
    ensures r.Err? ==> r.error in {WrongShape, InsufficientData} || r.error.MissingField?
  {
    match f
    case Given(v) => Ok((v, f))
    case Keyed(doc, key) =>
      if !doc.Record? then Err(WrongShape)
      else if key in doc.fields then Ok((doc.fields[key], f))
      else Err(MissingField(key))
    case Cursor(items, next) =>
      if next < |items| then Ok((items[next], Cursor(items, next + 1))) else Err(InsufficientData)
  }

  /** `fetch_and_encode`: call the fetcher once and apply the encode hook when there is one. */
  function FetchAndEncode(source: Feed, encode: Option<Encoder>, context: Ctx): (r: Result<(Doc, Feed)>)
    ensures r.Ok? <==> Fetch(source).Ok?
    ensures r.Ok? ==> r.value.1 == Fetch(source).value.1
    ensures r.Ok? && encode.None? ==> r.value.0 == Fetch(source).value.0
  {
    match Fetch(source)
    case Err(e) => Err(e)
    case Ok((v, rest)) => Ok((if encode.Some? then encode.value(v, context) else v, rest))
  }

  /** Which container a parsing child delivers into: nowhere, a key of the current document, or its end. */
  datatype Sink = Drop | SetKey(key: string) | Push

  /** The deliver callback: store `data` in the current document (element 0 of the context). */
  function Deliver(sink: Sink, context: Ctx, data: Doc): (r: Result<Ctx>)
    ensures sink.Drop? ==> r == Ok(context)
    ensures sink.SetKey? ==> (r.Ok? <==> |context| > 0 && context[0].Record?)
    ensures sink.Push? ==> (r.Ok? <==> |context| > 0 && context[0].List?)
    ensures r.Err? ==> r.error == WrongShape
    ensures r.Ok? ==> |r.value| == |context| && (|context| > 0 ==> r.value[1..] == context[1..])
    ensures sink.SetKey? && r.Ok? ==> r.value[0] == Record(context[0].fields[sink.key := data])
    ensures sink.Push? && r.Ok? ==> r.value[0] == List(context[0].items + [data])
  {
    match sink
    case Drop => Ok(context)
    case SetKey(key) =>
      if |context| > 0 && context[0].Record? then Ok([Record(context[0].fields[key := data])] + context[1..])
      else Err(WrongShape)
    case Push =>
      if |context| > 0 && context[0].List? then Ok([List(context[0].items + [data])] + context[1..])
      else Err(WrongShape)
  }

  /** The value `decode_and_deliver` hands on: the decode hook's result, or the value itself. */
  function Decoded(attached: Ctx, decode: Option<Decoder>, context: Ctx): (r: Doc)
    requires |attached| > 0
    ensures decode.None? ==> r == attached[0]
    ensures decode.Some? ==> r == decode.value(attached, context)
  {
    if decode.Some? then decode.value(attached, context) else attached[0]
  }

  /**
   * `decode_and_deliver`: apply the decode hook (to the value together with the back-references
   * attached to it) when there is one, then deliver the result exactly once.
   */
  function DecodeAndDeliver(attached: Ctx, decode: Option<Decoder>, context: Ctx, sink: Sink): (r: Result<(Doc, Ctx)>)
    requires |attached| > 0
    ensures r.Ok? <==> Deliver(sink, context, Decoded(attached, decode, context)).Ok?
    ensures r.Ok? ==> r.value == (Decoded(attached, decode, context), Deliver(sink, context, Decoded(attached, decode, context)).value)
  {
    var data := Decoded(attached, decode, context);
    match Deliver(sink, context, data)
    case Err(e) => Err(e)
    case Ok(c) => Ok((data, c))
  }

  /** A size specifier: a number, `{bits, bytes}`, a function of the context, or anything else. */
  datatype Numeric =
    | Literal(n: int)
    | BitsAndBytes(bits: int, bytes: int)
    | FromContext(f: Ctx -> int)
    | NotNumeric

  /** The unit a plain number or a function result is counted in: `'B'` (bytes) or `'b'` (bits). */
  datatype Unit = InBytes | InBits

  function Scale(unit: Unit, n: int): int
  {
    if unit == InBytes then 8 * n else n
  }

  /** `numeric`, with its result counted in bits. */
  function Resolve(spec: Numeric, context: Ctx, unit: Unit): (r: Result<nat>)
    ensures spec.BitsAndBytes? ==>
      (r.Ok? <==> spec.bits + 8 * spec.bytes >= 0) && (r.Ok? ==> r.value == spec.bits + 8 * spec.bytes)
    ensures spec.Literal? ==>
      (r.Ok? <==> spec.n >= 0) && (r.Ok? ==> r.value == Scale(unit, spec.n))
    ensures spec.FromContext? ==>
      (r.Ok? <==> spec.f(context) >= 0) && (r.Ok? ==> r.value == Scale(unit, spec.f(context)))
    ensures spec.NotNumeric? ==> r == Err(InvalidNumeric)
    ensures r.Err? ==> r.error == InvalidNumeric || r.error.NegativeSize?
  {
    var n :=
      match spec
      case Literal(n) => Scale(unit, n)
      case BitsAndBytes(bits, bytes) => bits + 8 * bytes
      case FromContext(f) => Scale(unit, f(context))
      case NotNumeric => 0;
    if spec.NotNumeric? then Err(InvalidNumeric)
    else if n < 0 then Err(NegativeSize(n))
    else Ok(n)
  }
}
