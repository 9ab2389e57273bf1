# A model of the declarative binary parser's composition engine

The library describes a binary format as a tree of components, each a *Struct*: a `pack` that writes a
document into a byte region and a `parse` that reads a document back, both reporting the size they
covered. This project models the engine in `src/transcode.ts` that composes them:

- the helpers `set_context`, `remove_context`, `fetch_and_encode`, `decode_and_deliver`, `numeric` and
  `extract_array_options`;
- the primitive field factory (`Bits`, `Uint`, `Int`), `Byte_Buffer` and `Padding`;
- `Branch` (discriminant dispatch) and `Embed` (flattening a nested aggregate into the enclosing
  document);
- `concat_buffers`, which stitches standalone fragments, sub-byte remainders included, into one region;
- `Binary_Map`, `Binary_Array` with its `__pack_loop` and `__parse_loop`, and `Repeat` with its count and
  byte-budget policies.

## How the model is laid out

- `wrappers.dfy`: `Option` and the `Result` of an operation, with one error constructor per `throw` of
  the source.
- `codec.dfy`: a stand-in for the numeric codec the engine calls. It holds the contract the engine relies
  on:
  - a value of width `w` serializes to exactly `w` bits, in either byte order;
  - deserializing inverts serializing (`Codec.CodecRoundTrip`).

  Regions are sequences of bits. Bit `p` is the bit of weight 2^(p % 8) of byte `p / 8`. Sizes and
  offsets are counted in bits, so the source's fractional byte sizes are exact.
- `document.dfy`: documents (`Number`, `Buffer`, `Null`, `Record`, `List`) and the context.
  - The context is a stack: element 0 is the document being built, and the rest is its chain of
    `Parent` back-references.
  - A fetcher is a `Feed`: a given value, a map's per-key lookup, or an array's shared iterator.
  - A deliver callback is a `Sink`: none, set a key, or push.
  - Hooks (`encode`, `decode`, a discriminant, a context-dependent size) are pure functions of the
    context.
- `structs.dfy`: the Struct variants and the builders. Runtime type inspection (`instanceof`,
  `hasOwnProperty('pack')`) is replaced by explicit discriminants.
- `transcode.dfy`: `pack` and `parse` of every variant as specification functions over sequences,
  mutually recursive over the Struct tree.
- `packing.dfy` and `parsing.dfy`: the same operations as methods over an `array<bool>` region. They
  write in place with `setUint8`-style byte writes, run the source's loops, and allocate a fresh zeroed
  region when none is shared. Each method is proved to return exactly its specification function's
  result and to leave the region exactly as that function says.
- `leaf_properties.dfy`, `layouts.dfy`, `positional.dfy`, `repetition.dfy`, `budget.dfy`, `choice.dfy`,
  `concat.dfy`, `standalone.dfy` and `construction.dfy`: the properties of the specification
  functions. These are round trips, frame conditions, error cases and the behaviour of the loops.

## Where the code and the library's stated design differ (the model follows the code)

- **Embed on a non-aggregate.** `Embed` around something that is neither a `Binary_Map` nor a
  `Binary_Array` does not fail: it passes straight through to the wrapped Struct (lines 341 and 354).
- **Repeat with no policy.** `Repeat` with neither `count` nor `bytes` builds without complaint. It
  throws only when packed or parsed (lines 571-573 and 592-594).
- **Where Parent is stripped.**
  - `Binary_Map`'s parse hands its decoder the results with the `Parent` back-reference still attached,
    and strips it afterwards (lines 438-439).
  - `Binary_Array`'s parse strips it first (line 527).
  - Results supplied by `Embed` are never stripped.
- **Zero-width pass.** A byte-budget `Repeat` does not check that a pass advances (lines 565-567 and
  586-588).
  - When packing, a pass of size 0 that still takes elements from the list is followed by the next
    pass, and the list eventually runs out (`InsufficientData`). A pass of size 0 that takes nothing
    leaves every input of the next pass unchanged, so the loop never ends. The model reports that case
    as the error `Diverges`.
  - When parsing, the model reports any pass of size 0 as `Diverges` (see "Left out").
- **A byte budget ignores the rest of the list.** A byte-budget `Repeat` stops packing once the budget
  is reached (lines 565-570). Elements of the list beyond the passes that reach the budget are
  ignored, not reported as an overrun. For example, `Repeat({bytes: 4}, Uint16)` packing `[1, 2, 3]`
  succeeds and writes only `1` and `2` (`Budget.BytesPackIgnoresRest`).

## Model

| member | source | states |
|---|---|---|
| `Document.SetContext` | src/transcode.ts:40-45 | the new document becomes the current one and the old context is its back-reference chain, unchanged |
| `Document.RemoveContext` | src/transcode.ts:47-52 | with the flag set only the document remains (its back-reference deleted); without it the chain stays attached |
| `Document.Fetch` | src/transcode.ts:405-411 | a given value is returned as is. A map's fetcher fails with `MissingField` exactly when the key is absent. An array's iterator yields the next element and advances, and fails with `InsufficientData` exactly when it is exhausted |
| `Document.FetchAndEncode` | src/transcode.ts:138-150 | fails exactly when the fetch fails; the fetcher's new state is the fetch's; without an encoder the value is the fetched one |
| `Document.Deliver` | src/transcode.ts:435 | the callback changes only the current document: setting a key on a record, pushing onto a list, and failing otherwise; no callback leaves the context alone |
| `Document.Decoded` | src/transcode.ts:159-165 | the decoder's result on the document with its attached chain, or the document itself without a decoder |
| `Document.DecodeAndDeliver` | src/transcode.ts:159-170 | returns the decoded value and delivers exactly that value once, failing exactly when delivery fails |
| `Document.Resolve` | src/transcode.ts:208-221 | a `{bits, bytes}` object, a number (scaled by the unit) or a context function resolves to its value exactly when that is non-negative, and otherwise fails with `NegativeSize`; anything else is `InvalidNumeric` |
| `Structs.Field` | src/transcode.ts:172-176 | a primitive field is built exactly when its width is permitted for its codec kind, and otherwise fails with `InvalidSize(width)` |
| `Structs.SetEntry` | src/transcode.ts:395 | `Map.set` keeps the keys distinct: an existing key keeps its position and takes the new value; a new key goes last; every other entry is unchanged |
| `Structs.MapEntries` | src/transcode.ts:395 | `new Map(entries)` has distinct keys, exactly the keys given |
| `Structs.MapOf` | src/transcode.ts:389-396 | `Binary_Map` is a named aggregate over the map's entries with the given hooks |
| `Structs.ExtractArrayOptions` | src/transcode.ts:453-465 | an options object at the front is taken off; otherwise one at the back is; otherwise there are no options and the elements are unchanged |
| `Structs.Children` | src/transcode.ts:480 | one child per remaining element: the Struct itself, or a non-Struct that fails when reached |
| `Structs.ArrayOf` | src/transcode.ts:477-480 | `Binary_Array` takes its hooks from the extracted options and its children from the rest |
| `Structs.RepeatOf` | src/transcode.ts:548-551 | `Repeat` takes `count` over `bytes`; with neither it builds with no policy |
| `Structs.Choose` | src/transcode.ts:308-319 | the choice under the discriminant's exact key, else the default, else `UnknownChoice(key)` |
| `Construction.MapEntriesLastWins` | src/transcode.ts:395 | every entry of `new Map(entries)` holds the Struct given last for its key |
| `Construction.MapEntriesFirstOrder` | src/transcode.ts:395 | the keys of `new Map(entries)` come in the order of their first appearance |
| `Construction.ExtractPrefersFront` | src/transcode.ts:454-462 | with options at both ends, the front one is taken and the back one stays behind as a child that is not a Struct |
| `Codec.CodecRoundTrip` | src/transcode.ts:179-191 | what a primitive field's serializer writes, its deserializer reads back, for every value in range and either byte order |
| `Transcode.PackPrimitive` | src/transcode.ts:179-184 | a primitive field's pack changes no bit before the byte holding its offset; standalone, its region is its size rounded up to bytes |
| `Transcode.FillFrom` | src/transcode.ts:264-275 | the fill loop changes no byte before the first it writes |
| `Transcode.PackPadding` | src/transcode.ts:258-278 | padding's pack changes no bit before the byte holding its offset; standalone, its region is its size rounded up to bytes |
| `Transcode.CopyBytes` | src/transcode.ts:241-243 | the byte-by-byte copy succeeds exactly when every byte lands inside the region, and leaves the region's length unchanged |
| `Transcode.PackByteSpan` | src/transcode.ts:231-245 | a byte span's pack changes no bit before the byte holding its offset |
| `Transcode.PlaceBytes` | src/transcode.ts:364-374 | placing a fragment's bytes leaves the region's length unchanged |
| `Transcode.Concat` | src/transcode.ts:359-378 | `concat_buffers` gives a region of `ceil(total / 8)` bytes |
| `Transcode.Finish` | src/transcode.ts:503-506 | an aggregate's pack ends with the shared region as it is, or with the concatenated fragments, the size being the loop's offset either way |
| `Transcode.PackSpec` | src/transcode.ts:127-130 | every pack into a shared region leaves the bits before the byte holding its offset unchanged, and every standalone pack gives a region of its size rounded up to bytes |
| `Transcode.PackNamed` | src/transcode.ts:397-424 | `Binary_Map`'s pack keeps the bits before its offset's byte |
| `Transcode.PackFields` | src/transcode.ts:412-419 | the field loop only moves forward and keeps whether it has a shared region |
| `Transcode.PackPositional` | src/transcode.ts:482-507 | `Binary_Array`'s pack keeps the bits before its offset's byte |
| `Transcode.PackLoop` | src/transcode.ts:556-575 | `__pack_loop` with `Repeat`'s override only moves forward and keeps whether it has a shared region |
| `Transcode.PackCount` | src/transcode.ts:558-562 | the count loop only moves forward |
| `Transcode.PackBudget` | src/transcode.ts:563-567 | the budget loop only moves forward and stops at or past the budget. A pass of size 0 that took elements is followed by the next one; a pass of size 0 that took none is `Diverges` |
| `Transcode.PackPass` | src/transcode.ts:509-517 | one pass only moves forward and keeps whether it has a shared region |
| `Transcode.PackBranch` | src/transcode.ts:320-322 | `Branch`'s pack keeps the bits before its offset's byte |
| `Transcode.PackEmbed` | src/transcode.ts:330-342 | `Embed`'s pack keeps the bits before its offset's byte |
| `Transcode.ParseSpec` | src/transcode.ts:122-124 | a parse changes at most the current document of the context, never its chain |
| `Transcode.ParseNamed` | src/transcode.ts:426-441 | `Binary_Map`'s parse changes at most the caller's current document |
| `Transcode.ParseFields` | src/transcode.ts:433-437 | the field loop changes only its results and only moves forward |
| `Transcode.ParsePositional` | src/transcode.ts:519-529 | `Binary_Array`'s parse changes at most the caller's current document |
| `Transcode.ParseLoop` | src/transcode.ts:577-596 | `__parse_loop` with `Repeat`'s override changes only its results and only moves forward |
| `Transcode.ParseCount` | src/transcode.ts:579-583 | the count loop changes only its results and only moves forward |
| `Transcode.ParseBudget` | src/transcode.ts:584-588 | the budget loop changes only its results, only moves forward and stops at or past the budget |
| `Transcode.ParsePass` | src/transcode.ts:531-538 | one pass changes only its results and only moves forward |
| `Transcode.ParseBranch` | src/transcode.ts:323-325 | `Branch`'s parse changes at most the caller's current document |
| `Transcode.ParseEmbed` | src/transcode.ts:343-355 | `Embed`'s parse changes at most the caller's current document |
| `LeafProperties.PrimitiveRoundTrip` | src/transcode.ts:179-191 | a hook-free primitive field packs any in-range value (standalone or at any offset with room) in exactly its width, reading the source once; parsing there gives the value back and leaves the context alone |
| `LeafProperties.PrimitiveParseDelivers` | src/transcode.ts:186-191 | a primitive field's parse reports its width and sets the decoded value under the key on the current document, nothing else |
| `LeafProperties.ByteSpanRoundTrip` | src/transcode.ts:229-254 | a hook-free byte span whose length resolves to the buffer's packs it and parses exactly those bytes back |
| `LeafProperties.ByteSpanPack` | src/transcode.ts:231-245 | standalone the pack is the buffer itself; shared, the bytes sit from the byte holding the offset, nothing else changed |
| `LeafProperties.ByteSpanParse` | src/transcode.ts:246-252 | the parse is the slice of the region's bytes from the byte holding the offset, of the resolved length |
| `LeafProperties.ByteSpanLengthCheck` | src/transcode.ts:233-237 | the pack fails with `LengthMismatch` exactly when the value is not a buffer of the resolved length |
| `LeafProperties.PaddingFill` | src/transcode.ts:264-277 | with a fill and a whole number of bytes, the fill is written least significant byte first from the byte holding the offset, and the source is not read |
| `LeafProperties.PaddingFillAlone` | src/transcode.ts:258-277 | standalone, the result is exactly the fill's low bits |
| `LeafProperties.PaddingWithoutFill` | src/transcode.ts:258-277 | without a fill nothing is written: the shared region is unchanged, or a standalone one is zero |
| `LeafProperties.PaddingParseIgnoresRegion` | src/transcode.ts:279-290 | padding's parse never reads the region; without a decoder it yields `null` and delivers nothing |
| `Packing.WriteBits` | src/transcode.ts:182 | writing a field's bits changes exactly those bits of the region |
| `Packing.SetUint8` | src/transcode.ts:268 | `setUint8` changes exactly that byte |
| `Packing.Fill` | src/transcode.ts:264-275 | the fill loop leaves the region exactly as `FillFrom` says, or fails with its error |
| `Packing.Copy` | src/transcode.ts:241-243 | the copy loop leaves the region exactly as `CopyBytes` says, or fails with its error |
| `Packing.Place` | src/transcode.ts:364-374 | one fragment's byte array, packed at its offset, leaves the region exactly as `PlaceBytes` says |
| `Packing.ConcatBuffers` | src/transcode.ts:359-378 | `concat_buffers` returns a fresh region equal to `Concat`, or its error |
| `Packing.Pack` | src/transcode.ts:127-130 | the in-place pack returns exactly what `PackSpec` gives on the region's current contents, writing into the shared region or into a fresh one |
| `Packing.PackPrimitive` | src/transcode.ts:179-184 | the primitive field's pack agrees with its specification |
| `Packing.PackPadding` | src/transcode.ts:258-278 | padding's pack agrees with its specification |
| `Packing.PackByteSpan` | src/transcode.ts:231-245 | the byte span's pack agrees with its specification |
| `Packing.Finish` | src/transcode.ts:503-506 | the end of an aggregate's pack agrees with `Finish` |
| `Packing.PackNamed` | src/transcode.ts:397-424 | `Binary_Map`'s pack agrees with its specification |
| `Packing.PackPositional` | src/transcode.ts:482-507 | `Binary_Array`'s pack agrees with its specification |
| `Packing.PackLoop` | src/transcode.ts:556-575 | the loops of `__pack_loop` and `Repeat` leave the state and region exactly as `PackLoop` says |
| `Packing.PackPass` | src/transcode.ts:509-517 | one pass leaves the state and region exactly as `PackPass` says |
| `Packing.PackBranch` | src/transcode.ts:320-322 | `Branch`'s pack agrees with its specification |
| `Packing.PackEmbed` | src/transcode.ts:330-342 | `Embed`'s pack agrees with its specification |
| `Parsing.Parse` | src/transcode.ts:122-124 | the parse returns exactly what `ParseSpec` gives on the region |
| `Parsing.ParseNamed` | src/transcode.ts:426-441 | `Binary_Map`'s parse agrees with its specification |
| `Parsing.ParseFieldsLoop` | src/transcode.ts:433-437 | the field loop agrees with `ParseFields` |
| `Parsing.ParsePositional` | src/transcode.ts:519-529 | `Binary_Array`'s parse agrees with its specification |
| `Parsing.ParseLoop` | src/transcode.ts:577-596 | the loops of `__parse_loop` and `Repeat` agree with `ParseLoop` |
| `Parsing.ParsePass` | src/transcode.ts:531-538 | one pass agrees with `ParsePass` |
| `Parsing.ParseBranch` | src/transcode.ts:323-325 | `Branch`'s parse agrees with its specification |
| `Parsing.ParseEmbed` | src/transcode.ts:343-355 | `Embed`'s parse agrees with its specification |
| `Concatenation.WholeByte` | src/transcode.ts:367-369 | a `Uint(8)` fed byte `j` of a fragment writes back exactly that byte's bits |
| `Concatenation.PartialByte` | src/transcode.ts:370-372 | a `Bits(r)` fed the last byte writes back exactly that byte's first `r` bits |
| `Concatenation.PlaceFrom` | src/transcode.ts:364-374 | placing one fragment succeeds exactly when it has a byte for every started byte of its size and the region has room, and then copies exactly its first `size` bits, nothing else changed |
| `Concatenation.PlaceFragment` | src/transcode.ts:364-375 | a fragment with room is copied to its offset, its first `size` bits only |
| `Concatenation.ConcatLays` | src/transcode.ts:359-378 | over well-framed fragments, every fragment's first `size` bits sit at the sum of the sizes before it, and every bit after the last is zero |
| `Concatenation.AbsorbCollects` | src/transcode.ts:415-418 | storing a standalone child's fragment keeps the fragments framed and their sizes summing to the offset |
| `Concatenation.FinishCollected` | src/transcode.ts:420-423 | a standalone aggregate's pack ends with `ceil(offset / 8)` bytes holding every fragment at its running offset |
| `Layouts.ReadFields` | src/transcode.ts:434-436 | the parsed record has exactly the keys of the fields read |
| `Layouts.NamedPack` | src/transcode.ts:397-424 | `Binary_Map` over plain fields, packing a fitting record into a region with room, succeeds. The size is the sum of the widths and the source is read once. Field `j` holds the number under its key at its running offset, and nothing outside the aggregate's bits changes |
| `Layouts.NamedPackKeys` | src/transcode.ts:405-411 | packing any record of numbers into a shared region succeeds exactly when every declared key is present, keys not declared being ignored; otherwise it throws `MissingField` for a key the record lacks |
| `Layouts.NamedParse` | src/transcode.ts:426-441 | `Binary_Map` over plain fields parses a record holding what each field reads under its key, in the sum of the widths; the decoder sees it with the enclosing context still attached |
| `Layouts.NamedRoundTrip` | src/transcode.ts:397-441 | packing a fitting record and parsing it back from the same offset and byte order gives the record |
| `Positional.ReadItems` | src/transcode.ts:531-538 | one number per item read |
| `Positional.PositionalPack` | src/transcode.ts:482-517 | `Binary_Array` over plain items succeeds exactly when the list has an element for every item, and otherwise fails with the iterator exhausted. Item `j` holds element `j` at its running offset, and nothing outside the aggregate's bits changes |
| `Positional.PositionalParse` | src/transcode.ts:519-538 | the parsed list holds what every item reads, in order, in the sum of the widths; the decoder sees the list with its back-reference removed |
| `Positional.PositionalRoundTrip` | src/transcode.ts:482-538 | packing one in-range number per item and parsing from the same offset gives the list back |
| `Standalone.NamedRoundTripAlone` | src/transcode.ts:397-441 | packing a fitting record with no shared region gives `ceil(size / 8)` bytes, where size is the fields' total width; parsing them from offset 0 gives the record back |
| `Standalone.NamedPackKeysAlone` | src/transcode.ts:405-411 | the same with no shared region: success exactly when every declared key is present, otherwise `MissingField` for a missing key |
| `Standalone.PositionalRoundTripAlone` | src/transcode.ts:482-538 | packing one in-range number per item with no shared region gives `ceil(size / 8)` bytes, where size is the items' total width; parsing them from offset 0 gives the list back |
| `Repetition.ReadPasses` | src/transcode.ts:579-583 | `n` passes read `n` times the items, as one list |
| `Repetition.LiteralCount` | src/transcode.ts:559-560 | a literal count of `c` makes exactly `c` passes |
| `Repetition.CountParse` | src/transcode.ts:577-583 | a repeat by count parses its passes one after another into one list, in the number of passes times the pass width |
| `Repetition.CountPack` | src/transcode.ts:556-562 | a repeat by count packs pass after pass from one iterator, succeeding exactly when the list holds every pass's elements, and changing only its own bits |
| `Repetition.CountRoundTrip` | src/transcode.ts:556-583 | packing exactly one in-range number per item of every pass and parsing back gives the list |
| `Repetition.NoPolicyParse` | src/transcode.ts:592-594 | a repeat with neither `count` nor `bytes` fails once parsed |
| `Repetition.NoPolicyPack` | src/transcode.ts:571-573 | a repeat with neither `count` nor `bytes` fails once packed, after fetching its list |
| `Repetition.CountUnresolved` | src/transcode.ts:217-219 | a count that does not resolve fails the parse with that error |
| `Budget.BudgetPasses` | src/transcode.ts:565-567 | the budget loop makes the least number of passes that reaches the budget |
| `Budget.BytesParseExact` | src/transcode.ts:584-591 | a successful byte-budget parse has read exactly the budget |
| `Budget.BytesPackExact` | src/transcode.ts:563-570 | a successful byte-budget pack has written exactly the budget |
| `Budget.BytesParse` | src/transcode.ts:584-591 | a byte-budget repeat parses passes until the budget is reached: landing on it gives what those passes read, and overshooting fails with `Overrun` |
| `Budget.BytesPack` | src/transcode.ts:563-570 | a byte-budget repeat packs passes until the budget is reached: landing on it is the count repeat of that many passes; overshooting fails with `Overrun`, unless the list ran out first |
| `Budget.BytesParseDiverges` | src/transcode.ts:586-588 | zero-width passes under a positive budget never reach it: `Diverges` |
| `Budget.BytesPackDiverges` | src/transcode.ts:565-567 | when packing with zero-width passes and a positive budget, a repeat with no items never leaves its loop (`Diverges`). Otherwise every pass takes one element per item until the list runs out (`InsufficientData`) |
| `Budget.BytesPackIgnoresRest` | src/transcode.ts:563-570 | a list longer than the passes that land on the budget still packs, in exactly the budget; parsing the result gives back only the elements those passes took |
| `Choice.BranchPack` | src/transcode.ts:320-322 | a branch packs exactly as the choice for the call's context, else the default; with neither it fails before the source is read |
| `Choice.BranchParse` | src/transcode.ts:323-325 | a branch parses exactly as the choice, with the same region, options and callback |
| `Choice.BranchRoundTrip` | src/transcode.ts:307-327 | a branch choosing a primitive field packs a value in range and parses it back in the same context |
| `Choice.EmbedPackPassesThrough` | src/transcode.ts:330-342 | without a context, or with no aggregate inside, an embedding packs as the embedded Struct |
| `Choice.EmbedParsePassesThrough` | src/transcode.ts:343-355 | the same for parse |
| `Choice.EmbedNamedPack` | src/transcode.ts:336-338 | an embedded `Binary_Map` packs its fields from the enclosing document, succeeding exactly when each key is present, and leaves the source alone |
| `Choice.EmbedNamedParse` | src/transcode.ts:349-351 | an embedded `Binary_Map` sets every field's key on the enclosing document and leaves the chain alone; the caller's callback is not used |
| `Choice.EmbedNamedRoundTrip` | src/transcode.ts:330-355 | packing from an enclosing document and parsing into another sets each field's key to the packed value and keeps every other key |
| `Choice.EmbedPositionalPack` | src/transcode.ts:333-335 | an embedded `Binary_Array` takes its elements from the enclosing iterator, failing exactly when it runs out |
| `Choice.EmbedPositionalParse` | src/transcode.ts:346-348 | an embedded `Binary_Array` appends what each item reads to the enclosing list, in order |
| `Choice.EmbedPositionalRoundTrip` | src/transcode.ts:330-355 | packing from the enclosing iterator and parsing back appends exactly the elements taken, in order |

## Left out

- The numeric codec (`serialization.ts`) is not part of this model. A stand-in serializes a value
  modulo 2^w, most significant group first for big-endian and least significant first for
  little-endian. `Int` uses two's complement. The permitted widths are `Bits` 1-7 and
  `Uint`/`Int` 8, 16, 32 and 64.
- Bit order within a byte: the stand-in puts region bit `p` at weight 2^(p % 8) of its byte, so the
  first sub-byte field takes the low bits. The library's design places sub-byte fields most
  significant bit first. For example, `Bits(3)` = 5 followed by `Bits(5)` = 17 gives the byte 141
  here, where the design gives 177. The engine itself only moves bits between regions, and the
  stand-in is the codec that makes its properties checkable. `Concatenation.PartialByte`,
  `Concatenation.ConcatLays` and `Concatenation.FinishCollected` rest on this choice: that the
  trailing `Bits(r)` of `concat_buffers` copies the first `r` bits of the last byte holds only in
  this bit order.
- `Float` and `Utf8` (floating point and text codecs), `inspect` (console output), the
  `Binary_Map.object_*` transcoders (JavaScript object conversion) and `src/index.ts` (re-exports) are
  not modelled.
- Sources and results other than numbers, buffers, records and lists are not modelled, and `numeric`
  values are integers. A fractional byte count is represented exactly in bits.
- Aliasing between the document under construction and a caller's object is not modelled. The
  back-reference is a separate stack, so a decoder that keeps the document cannot see a later mutation
  of it.
- A method that fails part-way leaves the writes made before the failure in the shared region. The
  specification functions describe only the successful result and the error.
- `Binary_Map`'s argument-order swap (lines 390-392) is not modelled; `MapOf` takes the entries and
  the hooks in fixed order.
- Transcode.ParseBudget: a pass of size 0 is `Diverges`. The source repeats the pass, with the
  results grown by what the previous passes delivered. The repetition ends only if a hook that reads
  those results (a discriminant or a size) makes a later pass differ; the model does not follow it.
- Parsing.ParseLoop: the same as `Transcode.ParseBudget`, which it is proved to follow.
- Budget.BytesParseDiverges: for items with no hooks, the source's loop never ends; this lemma
  states the model's `Diverges` in its place.
- Transcode.PackBudget: a pass of size 0 that takes nothing from the fetcher is `Diverges`, where
  the source repeats the identical pass forever.
- Packing.PackLoop: the same as `Transcode.PackBudget`, which it is proved to follow.
- Layouts.NamedPack: the bits written are stated only for a fitting record (exactly the declared
  keys, numbers in range). For any record of numbers, `Layouts.NamedPackKeys` states when the pack
  succeeds and its `MissingField` error, but not the bits an extra key or a wrapped value leaves.
- Layouts.NamedRoundTrip: proved in a shared region for plain fields (hook-free primitives). The
  standalone case is `Standalone.NamedRoundTripAlone`. Aggregates nested inside aggregates have no
  round trip; only the frame and concatenation lemmas cover them.
- Positional.PositionalRoundTrip: proved in a shared region for plain items. The standalone case is
  `Standalone.PositionalRoundTripAlone`. Nested aggregates have no round trip.
- Repetition.CountRoundTrip: proved only in a shared region; a count repeat packed standalone, through
  `concat_buffers`, has no round trip.
- Choice.EmbedNamedRoundTrip: proved only in a shared region; the standalone path has no round trip.
- Choice.EmbedPositionalRoundTrip: proved only in a shared region; the standalone path has no round
  trip.
- Concatenation.PlaceFrom: on failure the error is stated as one of `InsufficientData` or
  `OutOfRange`, not which one.
- Choice.BranchRoundTrip: proved only for choices that are hook-free primitive fields.
- LeafProperties.PaddingFill: proved only for a fill below 2^31, the range in which `fill >>= 8`
  (a signed 32-bit shift) is a division by 256, and only for a whole number of bytes.
- LeafProperties.PaddingFillAlone: the same restriction as `LeafProperties.PaddingFill`. The fill
  is below 2^31 and the padding is a whole number of bytes.
- Records are finite maps from key to document, so the insertion order of the source's objects is
  not modelled. A parsed record's key order, including that of `Embed`ded fields among the enclosing
  ones, is not stated.
- `Byte_Buffer`'s parse slices the DataView's underlying `ArrayBuffer` from its start (line 249),
  ignoring the DataView's own `byteOffset`. The model's region is always the whole buffer, so a
  DataView that starts inside a larger `ArrayBuffer` is not modelled.
- Transcode.PackSpec: the frame property keeps the bits before the byte holding the offset; bits
  after the Struct's own span are stated unchanged only in the aggregate lemmas.
