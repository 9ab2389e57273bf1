/**
 * `Repeat` over plain numeric items: a policy decides how many passes of `__pack_loop` and
 * `__parse_loop` run, every pass continuing at the offset and with the fetcher the previous one left,
 * and every parse pass appending to the one list the repeat delivers.
 */
module Repetition {
  import opened Wrappers
  import opened Codec
  import opened Document
  import opened Structs
  import opened Transcode
  import opened Layouts
  import opened Positional

  /** The bits one pass over `items` takes. */
  function PassWidth(items: seq<Struct>): nat
  {
    ItemStart(items, |items|)
  }

  /** `n` passes of `w` each. */
  function Span(w: nat, n: nat): nat
  {
    if n == 0 then 0 else w + Span(w, n - 1)
  }

  lemma {:induction false} SpanProduct(w: nat, n: nat)
    ensures Span(w, n) == n * w
  {
    if n > 0 {
      SpanProduct(w, n - 1);
    }
  }

  /** What `n` passes read, the first starting at bit `origin`: one flat list, pass after pass. */
  function ReadPasses(items: seq<Struct>, n: nat, view: seq<bool>, origin: nat, littleEndian: Option<bool>): (r: seq<Doc>)
    requires PlainItems(items) && origin + Span(PassWidth(items), n) <= |view|
    ensures |r| == Span(|items|, n)
  {
    if n == 0 then []
    else ReadItems(items, 0, view, origin, littleEndian) + ReadPasses(items, n - 1, view, origin + PassWidth(items), littleEndian)
  }

  // ---- by count: parse ----

  /** What `n` passes read from `origin` leave: the current list extended by what they read, in order, and the offset past them. */
  predicate CountParsed(r: Result<ParseAcc>, items: seq<Struct>, n: nat, view: seq<bool>, origin: nat, littleEndian: Option<bool>,
                        got: seq<Doc>, chain: Ctx, start: nat)
    requires PlainItems(items) && origin + Span(PassWidth(items), n) <= |view|
  {
    r == Ok(ParseAcc([List(got + ReadPasses(items, n, view, origin, littleEndian))] + chain, start + Span(PassWidth(items), n)))
  }

  /**
   * Passes `k` to `passes` of a parse by count (`n` of them), the region holding all of them: the offset
   * advances by one pass width per pass, and the current list gets what every pass reads, in order.
   */
  lemma {:induction false} ParseCountPlain(s: Struct, passes: nat, k: nat, n: nat, view: seq<bool>, base: nat, littleEndian: Option<bool>,
                                           got: seq<Doc>, chain: Ctx, start: nat, origin: nat, acc: ParseAcc)
    requires s.IsArray() && PlainItems(s.items) && k <= passes && n == passes - k
    requires acc == ParseAcc([List(got)] + chain, start) && origin == base + start
    requires origin + Span(PassWidth(s.items), n) <= |view|
    ensures CountParsed(ParseCount(s, passes, k, view, base, littleEndian, acc), s.items, n, view, origin, littleEndian, got, chain, start)
    decreases n
  {
    if n > 0 {
      var k', n', pass, got', start', later, next :=
        ParseCountFirst(s, passes, k, n, view, base, littleEndian, got, chain, start, origin, acc);
      ParseCountPlain(s, passes, k', n', view, base, littleEndian, got', chain, start', later, next);
      PassesAfter(ParseCount(s, passes, k, view, base, littleEndian, acc), ParseCount(s, passes, k', view, base, littleEndian, next),
                  s.items, n, n', view, origin, later, littleEndian, got, pass, got', chain, start, start');
    } else {
      ParseCountEnd(s, passes, k, view, base, littleEndian, got, chain, start, origin, acc);
    }
  }

  /** With no passes left the loop returns its state, and nothing is read. */
  lemma {:induction false} ParseCountEnd(s: Struct, passes: nat, k: nat, view: seq<bool>, base: nat, littleEndian: Option<bool>,
                                         got: seq<Doc>, chain: Ctx, start: nat, origin: nat, acc: ParseAcc)
    requires s.IsArray() && PlainItems(s.items) && k == passes
    requires acc == ParseAcc([List(got)] + chain, start) && origin <= |view|
    ensures CountParsed(ParseCount(s, passes, k, view, base, littleEndian, acc), s.items, 0, view, origin, littleEndian, got, chain, start)
  {
    assert got + [] == got;
  }

  lemma {:induction false} SpanStep(w: nat, n: nat, m: nat)
    requires n > 0 && m == n - 1
    ensures Span(w, n) == w + Span(w, m)
  {
  }

  /** The result of `n` passes, from the result of the `n - 1` passes after the first. */
  lemma {:induction false} PassesAfter(here: Result<ParseAcc>, after: Result<ParseAcc>, items: seq<Struct>, n: nat, n': nat,
                                       view: seq<bool>, origin: nat, later: nat, littleEndian: Option<bool>,
                                       got: seq<Doc>, pass: seq<Doc>, got': seq<Doc>, chain: Ctx, start: nat, start': nat)
    requires PlainItems(items) && n > 0 && n' == n - 1
    requires origin + Span(PassWidth(items), n) <= |view| && later == origin + PassWidth(items)
    requires pass == ReadItems(items, 0, view, origin, littleEndian)
    requires got' == got + pass && start' == start + PassWidth(items)
    requires here == after && later + Span(PassWidth(items), n') <= |view|
    requires CountParsed(after, items, n', view, later, littleEndian, got', chain, start')
    ensures CountParsed(here, items, n, view, origin, littleEndian, got, chain, start)
  {
    ReadPassesStep(items, n, n', view, origin, later, littleEndian);
    SpanStep(PassWidth(items), n, n');
    Regroup(got, pass, ReadPasses(items, n', view, later, littleEndian), got', ReadPasses(items, n, view, origin, littleEndian));
  }

  /** Appending in two steps is appending the two parts together. */
  lemma {:induction false} Regroup(got: seq<Doc>, pass: seq<Doc>, rest: seq<Doc>, got': seq<Doc>, all: seq<Doc>)
    requires got' == got + pass && all == pass + rest
    ensures got' + rest == got + all
  {
  }

  /** Pass `k` of a parse by count reads one pass and leaves the rest to the passes after it. */
  lemma {:induction false} ParseCountFirst(s: Struct, passes: nat, k: nat, n: nat, view: seq<bool>, base: nat, littleEndian: Option<bool>,
                                           got: seq<Doc>, chain: Ctx, start: nat, origin: nat, acc: ParseAcc)
    returns (k': nat, n': nat, pass: seq<Doc>, got': seq<Doc>, start': nat, later: nat, next: ParseAcc)
    requires s.IsArray() && PlainItems(s.items) && k <= passes && n == passes - k && n > 0
    requires acc == ParseAcc([List(got)] + chain, start) && origin == base + start
    requires origin + Span(PassWidth(s.items), n) <= |view|
    ensures k' <= passes && n' == passes - k' && n' == n - 1
    ensures later == base + start' && later == origin + PassWidth(s.items) && start' == start + PassWidth(s.items)
    ensures later + Span(PassWidth(s.items), n') <= |view| && origin + Span(PassWidth(s.items), n) <= |view|
    ensures pass == ReadItems(s.items, 0, view, origin, littleEndian) && got' == got + pass
    ensures next == ParseAcc([List(got')] + chain, start')
    ensures ParseCount(s, passes, k, view, base, littleEndian, acc) == ParseCount(s, passes, k', view, base, littleEndian, next)
  {
    var w := PassWidth(s.items);
    k', n' := k + 1, n - 1;
    SpanStep(w, n, n');
    pass := ReadItems(s.items, 0, view, origin, littleEndian);
    got', start', later := got + pass, start + w, origin + w;
    next := ParseAcc([List(got')] + chain, start');
    ParseCountPass(s, passes, k, view, base, littleEndian, got, chain, start, acc, next);
  }

  /** One pass of a parse by count, over a region that holds it. */
  lemma {:induction false} ParseCountPass(s: Struct, passes: nat, k: nat, view: seq<bool>, base: nat, littleEndian: Option<bool>,
                                          got: seq<Doc>, chain: Ctx, start: nat, acc: ParseAcc, next: ParseAcc)
    requires s.IsArray() && PlainItems(s.items) && k < passes
    requires acc == ParseAcc([List(got)] + chain, start) && base + start + PassWidth(s.items) <= |view|
    requires next == ParseAcc([List(got + ReadItems(s.items, 0, view, base + start, littleEndian))] + chain, start + PassWidth(s.items))
    ensures ParseCount(s, passes, k, view, base, littleEndian, acc) == ParseCount(s, passes, k + 1, view, base, littleEndian, next)
  {
    assert ItemStart(s.items, 0) == 0;
    ParsePassPlain(s, 0, view, base, start, littleEndian, got, chain, acc);
    ParseCountStep(s, passes, k, view, base, littleEndian, acc, next);
  }

  /** A pass that succeeds is followed by the remaining passes. */
  lemma {:induction false} ParseCountStep(s: Struct, passes: nat, k: nat, view: seq<bool>, base: nat, littleEndian: Option<bool>,
                                          acc: ParseAcc, next: ParseAcc)
    requires s.IsArray() && k < passes
    requires ParsePass(s, 0, view, base, littleEndian, acc) == Ok(next)
    ensures ParseCount(s, passes, k, view, base, littleEndian, acc) == ParseCount(s, passes, k + 1, view, base, littleEndian, next)
  {
  }

  /** `n` passes are the first pass, then `n - 1` passes one pass width further on. */
  lemma {:induction false} ReadPassesStep(items: seq<Struct>, n: nat, n': nat, view: seq<bool>, origin: nat, later: nat,
                                          littleEndian: Option<bool>)
    requires PlainItems(items) && n > 0 && n' == n - 1 && origin + Span(PassWidth(items), n) <= |view|
    requires later == origin + PassWidth(items)
    ensures ReadPasses(items, n, view, origin, littleEndian)
      == ReadItems(items, 0, view, origin, littleEndian) + ReadPasses(items, n', view, later, littleEndian)
  {
  }

  /** The passes a repeat by count makes in `context`: its count, in bytes, rounded up. */
  function CountPasses(s: Struct, context: Ctx): nat
    requires s.Repeat? && s.policy.ByCount? && Resolve(s.policy.count, context, InBytes).Ok?
  {
    CeilBytes(Resolve(s.policy.count, context, InBytes).value)
  }

  /** A literal count of `c` makes exactly `c` passes. */
  lemma {:induction false} LiteralCount(s: Struct, c: int, context: Ctx)
    requires s.Repeat? && s.policy == ByCount(Literal(c)) && c >= 0
    ensures Resolve(s.policy.count, context, InBytes).Ok? && CountPasses(s, context) == c
  {
    assert (8 * c + 7) / 8 == c;
  }

  /**
   * `Repeat` by count over plain items, parsing a region that holds every pass: the passes read one
   * after another, their size is the number of passes times the pass width, the one list holds what
   * every pass read, in order, and a decoder sees that list alone.
   */
  lemma {:induction false} CountParse(s: Struct, view: seq<bool>, offset: nat, littleEndian: Option<bool>, context: Ctx)
    requires s.Repeat? && s.policy.ByCount? && PlainItems(s.items) && Resolve(s.policy.count, context, InBytes).Ok?
    requires offset + Span(PassWidth(s.items), CountPasses(s, context)) <= |view|
    ensures var values := List(ReadPasses(s.items, CountPasses(s, context), view, offset, Endian(littleEndian, s.tc.littleEndian)));
      ParseSpec(s, view, ParseOpts(offset, littleEndian, context), Drop)
        == Ok(Parsed(if s.tc.decode.Some? then s.tc.decode.value([values], context) else values,
                     Span(PassWidth(s.items), CountPasses(s, context)), context))
  {
    var le := Endian(littleEndian, s.tc.littleEndian);
    var passes := CountPasses(s, context);
    var start := ParseAcc([List([])] + context, 0);
    ParseIsPositional(s, view, ParseOpts(offset, littleEndian, context), Drop);
    ParseCountPlain(s, passes, 0, passes, view, offset, le, [], context, 0, offset, start);
    assert ParseLoop(s, view, context, offset, le, start) == ParseCount(s, passes, 0, view, offset, le, start);
    var back := ReadPasses(s.items, passes, view, offset, le);
    assert [] + back == back;
  }

  // ---- by count: pack ----

  /** One pass over `items` holds, from bit `origin`, the encodings of the elements from `first` on. */
  predicate PassHolds(view: seq<bool>, items: seq<Struct>, origin: nat, values: seq<Doc>, first: nat, littleEndian: Option<bool>)
  {
    && first + |items| <= |values|
    && forall j | 0 <= j < |items| :: ItemAt(view, items, j, origin, values, first, littleEndian)
  }

  /** Item `j` of a pass from bit `origin` holds the encoding of element `first + j`. */
  predicate ItemAt(view: seq<bool>, items: seq<Struct>, j: nat, origin: nat, values: seq<Doc>, first: nat, littleEndian: Option<bool>)
  {
    && j < |items| && first + j < |values| && items[j].Primitive? && values[first + j].Number?
    && Holds(view, origin + ItemStart(items, j), Encoded(items[j], values[first + j].n, littleEndian))
  }

  /** `n` passes lie one after another from bit `origin`, taking the elements from `first` on in order. */
  predicate PassesHold(view: seq<bool>, items: seq<Struct>, n: nat, origin: nat, values: seq<Doc>, first: nat, littleEndian: Option<bool>)
    decreases n
  {
    n > 0 ==>
      && PassHolds(view, items, origin, values, first, littleEndian)
      && PassesHold(view, items, n - 1, origin + PassWidth(items), values, first + |items|, littleEndian)
  }

  /**
   * What passes `k` to `passes` of a pack by count (`n` of them) do in a shared region, the first
   * beginning at offset `start` with the fetcher at element `first`: they succeed exactly when the
   * list holds an element for every item of every pass, and fail with the iterator exhausted
   * otherwise; the offset advances by one pass width per pass, the fetcher moves past every element
   * taken, the passes hold those elements in order, and nothing outside their bits changes.
   */
  predicate CountPacked(r: Result<PackAcc>, items: seq<Struct>, n: nat, base: nat, start: nat, first: nat, littleEndian: Option<bool>,
                        acc: PackAcc)
    requires PlainItems(items) && acc.view.Some? && acc.feed.Cursor? && Numbers(acc.feed.items)
  {
    var values := acc.feed.items;
    && (r.Ok? <==> first + Span(|items|, n) <= |values|)
    && (r.Err? ==> r.error == InsufficientData)
    && (r.Ok? ==>
          && r.value.view.Some? && r.value.offset == start + Span(PassWidth(items), n)
          && r.value.feed == Cursor(values, first + Span(|items|, n)) && r.value.frags == acc.frags
          && Outside(acc.view.value, r.value.view.value, base + start, base + start + Span(PassWidth(items), n))
          && PassesHold(r.value.view.value, items, n, base + start, values, first, littleEndian))
  }

  /** Passes `k` to `passes` of a pack by count over plain items, in a shared region with room for all of them. */
  lemma {:induction false} PackCountPlain(s: Struct, passes: nat, k: nat, n: nat, stack: Ctx, base: nat, start: nat, first: nat,
                                          littleEndian: Option<bool>, acc: PackAcc)
    requires s.IsArray() && PlainItems(s.items) && k <= passes && n == passes - k
    requires acc.view.Some? && acc.offset == start && base + start + Span(PassWidth(s.items), n) <= |acc.view.value|
    requires acc.feed.Cursor? && Numbers(acc.feed.items) && acc.feed.next == first && first <= |acc.feed.items|
    ensures CountPacked(PackCount(s, passes, k, stack, base, littleEndian, acc), s.items, n, base, start, first, littleEndian, acc)
    decreases n
  {
    if n > 0 {
      var n', start', first' := n - 1, start + PassWidth(s.items), first + |s.items|;
      var r1 := PackCountFirst(s, passes, k, n, stack, base, start, first, littleEndian, acc);
      if r1.Ok? {
        PassLands(r1, s.items, n, n', base, start, start', first, first', littleEndian, acc);
        FirstPass(r1, s.items, base, start, start', first, littleEndian, acc, r1.value);
        PackCountPlain(s, passes, k + 1, n', stack, base, start', first', littleEndian, r1.value);
        CountPackedAfter(PackCount(s, passes, k, stack, base, littleEndian, acc), PackCount(s, passes, k + 1, stack, base, littleEndian, r1.value),
                         s.items, n, n', base, start, start', first, first', littleEndian, acc, r1.value, acc.feed.items);
      } else {
        CountPackedFails(PackCount(s, passes, k, stack, base, littleEndian, acc), r1, s.items, n, n', base, start, first, littleEndian, acc);
      }
    } else {
      assert PackCount(s, passes, k, stack, base, littleEndian, acc) == Ok(acc);
    }
  }

  /**
   * Pass `k` of a pack by count: the pass over the items as module Positional describes it, followed,
   * when it succeeds, by the remaining passes from where it ends.
   */
  lemma {:induction false} PackCountFirst(s: Struct, passes: nat, k: nat, n: nat, stack: Ctx, base: nat, start: nat, first: nat,
                                          littleEndian: Option<bool>, acc: PackAcc)
    returns (r1: Result<PackAcc>)
    requires s.IsArray() && PlainItems(s.items) && k < passes && n == passes - k
    requires acc.view.Some? && acc.offset == start && base + start + Span(PassWidth(s.items), n) <= |acc.view.value|
    requires acc.feed.Cursor? && Numbers(acc.feed.items) && acc.feed.next == first && first <= |acc.feed.items|
    ensures ItemsPacked(r1, s.items, 0, base, start, first, littleEndian, acc)
    ensures r1.Err? ==> PackCount(s, passes, k, stack, base, littleEndian, acc) == r1
    ensures r1.Ok? ==> PackCount(s, passes, k, stack, base, littleEndian, acc) == PackCount(s, passes, k + 1, stack, base, littleEndian, r1.value)
  {
    r1 := PackPass(s, 0, stack, base, littleEndian, acc);
    PackCountPass(s, n, stack, base, start, first, littleEndian, acc);
    PackCountNext(s, passes, k, stack, base, littleEndian, acc, r1);
  }

  /** The first of the `n` passes left of a pack by count, as module Positional describes a pass. */
  lemma {:induction false} PackCountPass(s: Struct, n: nat, stack: Ctx, base: nat, start: nat, first: nat, littleEndian: Option<bool>, acc: PackAcc)
    requires s.IsArray() && PlainItems(s.items) && n > 0
    requires acc.view.Some? && acc.offset == start && base + start + Span(PassWidth(s.items), n) <= |acc.view.value|
    requires acc.feed.Cursor? && Numbers(acc.feed.items) && acc.feed.next == first && first <= |acc.feed.items|
    ensures ItemsPacked(PackPass(s, 0, stack, base, littleEndian, acc), s.items, 0, base, start, first, littleEndian, acc)
  {
    SpanStep(PassWidth(s.items), n, n - 1);
    assert ItemStart(s.items, 0) == 0;
    PackPassPlain(s, 0, stack, base, start, first, littleEndian, acc);
  }

  /** A pass that succeeds ends one pass width on, with the fetcher one pass of elements on and room for the passes left. */
  lemma {:induction false} PassLands(r1: Result<PackAcc>, items: seq<Struct>, n: nat, n': nat, base: nat, start: nat, start': nat,
                                     first: nat, first': nat, littleEndian: Option<bool>, acc: PackAcc)
    requires PlainItems(items) && acc.view.Some? && acc.feed.Cursor? && Numbers(acc.feed.items)
    requires n > 0 && n' == n - 1 && start' == start + PassWidth(items) && first' == first + |items|
    requires base + start + Span(PassWidth(items), n) <= |acc.view.value|
    requires r1.Ok? && ItemsPacked(r1, items, 0, base, start, first, littleEndian, acc)
    ensures r1.value.view.Some? && r1.value.offset == start' && base + start' + Span(PassWidth(items), n') <= |r1.value.view.value|
    ensures r1.value.feed == Cursor(acc.feed.items, first') && first' <= |acc.feed.items|
  {
    SpanStep(PassWidth(items), n, n');
  }

  /** A pack by count with passes left makes one pass, then the rest from where it ends. */
  lemma {:induction false} PackCountNext(s: Struct, passes: nat, k: nat, stack: Ctx, base: nat, littleEndian: Option<bool>, acc: PackAcc,
                                         r1: Result<PackAcc>)
    requires s.IsArray() && k < passes && r1 == PackPass(s, 0, stack, base, littleEndian, acc)
    ensures r1.Err? ==> PackCount(s, passes, k, stack, base, littleEndian, acc) == r1
    ensures r1.Ok? ==> PackCount(s, passes, k, stack, base, littleEndian, acc) == PackCount(s, passes, k + 1, stack, base, littleEndian, r1.value)
  {
  }

  /** A failed pass fails the pack: some pass lacks an element. */
  lemma {:induction false} CountPackedFails(here: Result<PackAcc>, r1: Result<PackAcc>, items: seq<Struct>, n: nat, n': nat,
                                            base: nat, start: nat, first: nat, littleEndian: Option<bool>, acc: PackAcc)
    requires PlainItems(items) && acc.view.Some? && acc.feed.Cursor? && Numbers(acc.feed.items)
    requires n > 0 && n' == n - 1 && r1.Err? && here == r1
    requires ItemsPacked(r1, items, 0, base, start, first, littleEndian, acc)
    ensures CountPacked(here, items, n, base, start, first, littleEndian, acc)
  {
    SpanStep(|items|, n, n');
  }

  /** The passes of a pack by count, from its first pass and the passes after it. */
  lemma {:induction false} CountPackedAfter(here: Result<PackAcc>, r: Result<PackAcc>, items: seq<Struct>,
                                            n: nat, n': nat, base: nat, start: nat, start': nat, first: nat, first': nat,
                                            littleEndian: Option<bool>, acc: PackAcc, next: PackAcc, values: seq<Doc>)
    requires PlainItems(items) && acc.view.Some? && acc.feed == Cursor(values, first) && Numbers(values) && acc.offset == start
    requires n > 0 && n' == n - 1 && start' == start + PassWidth(items) && first' == first + |items|
    requires next.view.Some? && next.feed == Cursor(values, first') && next.frags == acc.frags && first' <= |values|
    requires Outside(acc.view.value, next.view.value, base + start, base + start')
    requires PassHolds(next.view.value, items, base + start, values, first, littleEndian)
    requires here == r && CountPacked(r, items, n', base, start', first', littleEndian, next)
    ensures CountPacked(here, items, n, base, start, first, littleEndian, acc)
  {
    SpanStep(|items|, n, n');
    SpanStep(PassWidth(items), n, n');
    if r.Ok? {
      var hi := base + start' + Span(PassWidth(items), n');
      LaterPasses(r, items, n', base, start', first', littleEndian, next, values, hi);
      OutsideJoin(acc.view.value, next.view.value, r.value.view.value, base + start, base + start', hi);
      PassKept(next.view.value, r.value.view.value, items, base + start, values, first, littleEndian, base + start', hi);
      PassesHoldCons(r.value.view.value, items, n, n', base + start, base + start', values, first, first', littleEndian);
    }
  }

  /** What a successful first pass leaves, in the terms the passes after it use. */
  lemma {:induction false} FirstPass(r1: Result<PackAcc>, items: seq<Struct>, base: nat, start: nat, start': nat, first: nat,
                                     littleEndian: Option<bool>, acc: PackAcc, next: PackAcc)
    requires PlainItems(items) && acc.view.Some? && acc.feed.Cursor? && Numbers(acc.feed.items) && acc.offset == start
    requires start' == start + PassWidth(items) && r1 == Ok(next)
    requires ItemsPacked(r1, items, 0, base, start, first, littleEndian, acc)
    ensures next.view.Some? && next.frags == acc.frags && first + |items| <= |acc.feed.items|
    ensures Outside(acc.view.value, next.view.value, base + start, base + start')
    ensures PassHolds(next.view.value, items, base + start, acc.feed.items, first, littleEndian)
  {
  }

  /** What the passes after the first leave, in the terms the whole uses. */
  lemma {:induction false} LaterPasses(r: Result<PackAcc>, items: seq<Struct>, n': nat, base: nat, start': nat, first': nat,
                                       littleEndian: Option<bool>, next: PackAcc, values: seq<Doc>, hi: nat)
    requires PlainItems(items) && next.view.Some? && next.feed == Cursor(values, first') && Numbers(values)
    requires CountPacked(r, items, n', base, start', first', littleEndian, next) && r.Ok?
    requires hi == base + start' + Span(PassWidth(items), n')
    ensures r.value.view.Some? && first' + Span(|items|, n') <= |values|
    ensures Outside(next.view.value, r.value.view.value, base + start', hi)
    ensures PassesHold(r.value.view.value, items, n', base + start', values, first', littleEndian)
  {
  }

  /** A pass that holds survives changes after it. */
  lemma {:induction false} PassKept(view: seq<bool>, after: seq<bool>, items: seq<Struct>, origin: nat, values: seq<Doc>, first: nat,
                                    littleEndian: Option<bool>, lo: nat, hi: nat)
    requires PlainItems(items) && Numbers(values) && first + |items| <= |values|
    requires origin + PassWidth(items) <= lo && Outside(view, after, lo, hi)
    requires PassHolds(view, items, origin, values, first, littleEndian)
    ensures PassHolds(after, items, origin, values, first, littleEndian)
  {
    forall j | 0 <= j < |items|
      ensures ItemAt(after, items, j, origin, values, first, littleEndian)
    {
      assert ItemAt(view, items, j, origin, values, first, littleEndian);
      ItemWithin(items, j);
      var at := origin + ItemStart(items, j);
      var bits := Encoded(items[j], values[first + j].n, littleEndian);
      SliceAgrees(after, view, at, at + |bits|);
    }
  }

  lemma {:induction false} PassesHoldCons(view: seq<bool>, items: seq<Struct>, n: nat, n': nat, origin: nat, later: nat,
                                          values: seq<Doc>, first: nat, first': nat, littleEndian: Option<bool>)
    requires PlainItems(items) && Numbers(values) && n > 0 && n' == n - 1
    requires later == origin + PassWidth(items) && first' == first + |items| && first + Span(|items|, n) <= |values|
    requires PassHolds(view, items, origin, values, first, littleEndian)
    requires PassesHold(view, items, n', later, values, first', littleEndian)
    ensures PassesHold(view, items, n, origin, values, first, littleEndian)
  {
  }

  /**
   * What packing a list into a shared region with a repeat of `n` passes over plain items gives: it
   * succeeds exactly when the list has an element for every item of every pass (extra elements are
   * ignored) and fails with the iterator exhausted otherwise; the size is `n` pass widths, the passes
   * hold the list's elements in order from the start, and nothing outside the repeat's bits changes.
   */
  predicate RepeatPacked(p: Result<Packed>, items: seq<Struct>, n: nat, values: seq<Doc>, region: seq<bool>, offset: nat,
                         littleEndian: Option<bool>)
  {
    && (p.Ok? <==> Span(|items|, n) <= |values|)
    && (p.Err? ==> p.error == InsufficientData)
    && (p.Ok? ==>
          && p.value.size == Span(PassWidth(items), n) && p.value.feed == Given(List(values))
          && Outside(region, p.value.buffer, offset, offset + p.value.size)
          && PassesHold(p.value.buffer, items, n, offset, values, 0, littleEndian))
  }

  /**
   * `Repeat` by count over plain items, packing a list into a shared region with room for every pass:
   * the passes run one after another, each pulling from the one iterator over the list.
   */
  lemma {:induction false} CountPack(s: Struct, values: seq<Doc>, region: seq<bool>, offset: nat, littleEndian: Option<bool>, context: Ctx)
    requires s.Repeat? && s.policy.ByCount? && PlainItems(s.items) && s.tc.encode.None? && Numbers(values)
    requires Resolve(s.policy.count, context, InBytes).Ok?
    requires offset + Span(PassWidth(s.items), CountPasses(s, context)) <= |region|
    ensures RepeatPacked(PackSpec(s, Given(List(values)), PackOpts(Some(region), offset, littleEndian, context)),
                         s.items, CountPasses(s, context), values, region, offset, Endian(littleEndian, s.tc.littleEndian))
  {
    var le := Endian(littleEndian, s.tc.littleEndian);
    var o := PackOpts(Some(region), offset, littleEndian, context);
    var passes := CountPasses(s, context);
    var stack := SetContext(List(values), context);
    var start := PackAcc(Some(region), [], 0, Cursor(values, 0));
    PackCountPlain(s, passes, 0, passes, stack, offset, 0, 0, le, start);
    var r := PackCount(s, passes, 0, stack, offset, le, start);
    PackIsPositional(s, Given(List(values)), o);
    PositionalGiven(s, values, o);
    assert PackLoop(s, stack, context, offset, le, start) == r;
    LoopBody(s, Cursor(values, 0), stack, context, region, offset, le, r);
    PackedFromCount(PackSpec(s, Given(List(values)), o), r, s.items, passes, values, region, offset, le);
  }

  /** An aggregate's loop in a shared region returns the region it updated. */
  lemma {:induction false} LoopBody(s: Struct, fetcher: Feed, stack: Ctx, parent: Ctx, region: seq<bool>, base: nat, littleEndian: Option<bool>,
                                    r: Result<PackAcc>)
    requires s.IsArray()
    requires r == PackLoop(s, stack, parent, base, littleEndian, PackAcc(Some(region), [], 0, fetcher))
    ensures r.Ok? ==> r.value.view.Some?
    ensures PackArrayBody(s, fetcher, stack, parent, Some(region), base, littleEndian)
      == if r.Ok? then Ok((r.value.view.value, r.value.offset, r.value.feed)) else Err(r.error)
  {
  }

  /** The repeat's result from its passes'. */
  lemma {:induction false} PackedFromCount(p: Result<Packed>, r: Result<PackAcc>, items: seq<Struct>, n: nat, values: seq<Doc>,
                                           region: seq<bool>, offset: nat, littleEndian: Option<bool>)
    requires PlainItems(items) && Numbers(values)
    requires r.Ok? ==> r.value.view.Some?
    requires p == if r.Ok? then Ok(Packed(r.value.view.value, r.value.offset, Given(List(values)))) else Err(r.error)
    requires CountPacked(r, items, n, offset, 0, 0, littleEndian, PackAcc(Some(region), [], 0, Cursor(values, 0)))
    ensures RepeatPacked(p, items, n, values, region, offset, littleEndian)
  {
  }

  // ---- by count: round trip ----

  /** Element `first + j` is an in-range number for item `j`. */
  predicate FitsAt(items: seq<Struct>, j: nat, values: seq<Doc>, first: nat)
  {
    && j < |items| && first + j < |values| && items[j].Primitive? && values[first + j].Number?
    && InRange(items[j].kind, values[first + j].n, items[j].width)
  }

  /** Every element that `n` passes take from `first` on is an in-range number for its item. */
  predicate PassesFit(items: seq<Struct>, n: nat, values: seq<Doc>, first: nat)
    decreases n
  {
    n > 0 ==>
      && (forall j | 0 <= j < |items| :: FitsAt(items, j, values, first))
      && PassesFit(items, n - 1, values, first + |items|)
  }

  /** A pass holding the encodings of in-range numbers reads them back. */
  lemma {:induction false} PassReadsBack(view: seq<bool>, items: seq<Struct>, origin: nat, values: seq<Doc>, first: nat,
                                         littleEndian: Option<bool>)
    requires PlainItems(items) && origin + PassWidth(items) <= |view|
    requires PassHolds(view, items, origin, values, first, littleEndian)
    requires forall j | 0 <= j < |items| :: FitsAt(items, j, values, first)
    ensures first + |items| <= |values|
    ensures ReadItems(items, 0, view, origin, littleEndian) == values[first .. first + |items|]
  {
    var slice := values[first .. first + |items|];
    forall j | 0 <= j < |items|
      ensures ItemHolds(items, j, view, origin, littleEndian, slice)
    {
      assert ItemAt(view, items, j, origin, values, first, littleEndian);
      assert FitsAt(items, j, values, first);
      assert slice[j] == values[first + j];
    }
    ReadItemsBack(items, view, origin, littleEndian, slice);
  }

  /** `n` passes holding the encodings of in-range numbers read them back, in order. */
  lemma {:induction false} ReadPassesBack(view: seq<bool>, items: seq<Struct>, n: nat, origin: nat, values: seq<Doc>, first: nat,
                                          littleEndian: Option<bool>)
    requires PlainItems(items) && origin + Span(PassWidth(items), n) <= |view| && first + Span(|items|, n) <= |values|
    requires PassesHold(view, items, n, origin, values, first, littleEndian)
    requires PassesFit(items, n, values, first)
    ensures ReadPasses(items, n, view, origin, littleEndian) == values[first .. first + Span(|items|, n)]
    decreases n
  {
    if n > 0 {
      var n', later, first' := n - 1, origin + PassWidth(items), first + |items|;
      SpanStep(PassWidth(items), n, n');
      SpanStep(|items|, n, n');
      FirstPassBack(view, items, n, n', origin, later, values, first, first', littleEndian);
      ReadPassesBack(view, items, n', later, values, first', littleEndian);
      ReadPassesStep(items, n, n', view, origin, later, littleEndian);
      BackAfter(ReadPasses(items, n, view, origin, littleEndian), ReadItems(items, 0, view, origin, littleEndian),
                ReadPasses(items, n', view, later, littleEndian), values, first, first', first' + Span(|items|, n'), first + Span(|items|, n));
    }
  }

  /** The first of `n` passes reads its elements back, and the passes after it hold and fit the elements after those. */
  lemma {:induction false} FirstPassBack(view: seq<bool>, items: seq<Struct>, n: nat, n': nat, origin: nat, later: nat,
                                         values: seq<Doc>, first: nat, first': nat, littleEndian: Option<bool>)
    requires PlainItems(items) && n > 0 && n' == n - 1 && later == origin + PassWidth(items) && first' == first + |items|
    requires origin + PassWidth(items) <= |view|
    requires PassesHold(view, items, n, origin, values, first, littleEndian) && PassesFit(items, n, values, first)
    ensures first' <= |values| && ReadItems(items, 0, view, origin, littleEndian) == values[first .. first']
    ensures PassesHold(view, items, n', later, values, first', littleEndian) && PassesFit(items, n', values, first')
  {
    PassesUnfold(view, items, n, n', origin, later, values, first, first', littleEndian);
    PassReadsBack(view, items, origin, values, first, littleEndian);
  }

  /** A list that is one slice followed by the next is the slice spanning both. */
  lemma {:induction false} BackAfter(whole: seq<Doc>, pass: seq<Doc>, rest: seq<Doc>, values: seq<Doc>, first: nat, first': nat, end: nat, end': nat)
    requires first <= first' <= end <= |values| && end == end'
    requires whole == pass + rest && pass == values[first .. first'] && rest == values[first' .. end]
    ensures whole == values[first .. end']
  {
    SliceJoin(values, first, first', end);
  }

  /** The first of `n` passes, and the `n - 1` after it. */
  lemma {:induction false} PassesUnfold(view: seq<bool>, items: seq<Struct>, n: nat, n': nat, origin: nat, later: nat,
                                        values: seq<Doc>, first: nat, first': nat, littleEndian: Option<bool>)
    requires n > 0 && n' == n - 1 && later == origin + PassWidth(items) && first' == first + |items|
    requires PassesHold(view, items, n, origin, values, first, littleEndian) && PassesFit(items, n, values, first)
    ensures PassHolds(view, items, origin, values, first, littleEndian) && PassesHold(view, items, n', later, values, first', littleEndian)
    ensures (forall j | 0 <= j < |items| :: FitsAt(items, j, values, first)) && PassesFit(items, n', values, first')
  {
  }

  lemma {:induction false} SliceJoin(values: seq<Doc>, lo: nat, mid: nat, hi: nat)
    requires lo <= mid <= hi <= |values|
    ensures values[lo .. mid] + values[mid .. hi] == values[lo .. hi]
  {
  }

  /**
   * `Repeat` by count over plain items, packing a list with exactly one in-range number per item of
   * every pass into a shared region with room for them and parsing from the same offset in the same
   * byte order and context, gives the list back.
   */
  lemma {:induction false} CountRoundTrip(s: Struct, values: seq<Doc>, region: seq<bool>, offset: nat, littleEndian: Option<bool>, context: Ctx)
    requires s.Repeat? && s.policy.ByCount? && PlainItems(s.items) && s.tc.encode.None? && s.tc.decode.None?
    requires Resolve(s.policy.count, context, InBytes).Ok?
    requires |values| == Span(|s.items|, CountPasses(s, context)) && PassesFit(s.items, CountPasses(s, context), values, 0)
    requires offset + Span(PassWidth(s.items), CountPasses(s, context)) <= |region|
    ensures var p := PackSpec(s, Given(List(values)), PackOpts(Some(region), offset, littleEndian, context));
      && p.Ok?
      && ParseSpec(s, p.value.buffer, ParseOpts(offset, littleEndian, context), Drop) == Ok(Parsed(List(values), p.value.size, context))
  {
    var le := Endian(littleEndian, s.tc.littleEndian);
    var passes := CountPasses(s, context);
    FitsNumbers(s.items, passes, values, 0);
    CountPack(s, values, region, offset, littleEndian, context);
    var packed := PackSpec(s, Given(List(values)), PackOpts(Some(region), offset, littleEndian, context)).value.buffer;
    CountParse(s, packed, offset, littleEndian, context);
    ReadPassesBack(packed, s.items, passes, offset, values, 0, le);
    assert values[0 .. |values|] == values;
  }

  /** Elements that fit their items are numbers. */
  lemma {:induction false} FitsNumbers(items: seq<Struct>, n: nat, values: seq<Doc>, first: nat)
    requires first + Span(|items|, n) == |values| && PassesFit(items, n, values, first)
    ensures forall m | first <= m < |values| :: values[m].Number?
    decreases n
  {
    if n > 0 {
      SpanStep(|items|, n, n - 1);
      FitsNumbers(items, n - 1, values, first + |items|);
      forall m | first <= m < first + |items|
        ensures values[m].Number?
      {
        assert FitsAt(items, m - first, values, first);
      }
    }
  }

  // ---- policy errors ----

  /** A repeat with neither `count` nor `bytes` builds, and throws once it is parsed. */
  lemma {:induction false} NoPolicyParse(s: Struct, view: seq<bool>, o: ParseOpts, sink: Sink)
    requires s.Repeat? && s.policy.NoPolicy?
    ensures ParseSpec(s, view, o, sink) == Err(NoRepeatPolicy)
  {
    ParseIsPositional(s, view, o, sink);
  }

  /** ... and once it is packed, after fetching (and encoding) its list. */
  lemma {:induction false} NoPolicyPack(s: Struct, source: Feed, o: PackOpts)
    requires s.Repeat? && s.policy.NoPolicy?
    ensures PackSpec(s, source, o)
      == match FetchAndEncode(source, s.tc.encode, o.context)
         case Err(e) => Err(e)
         case Ok((encoded, _)) => if encoded.List? then Err(NoRepeatPolicy) else Err(WrongShape)
  {
    PackIsPositional(s, source, o);
    match FetchAndEncode(source, s.tc.encode, o.context)
    case Err(_) =>
    case Ok((encoded, _)) =>
      if encoded.List? {
        var le := Endian(o.littleEndian, s.tc.littleEndian);
        var stack := SetContext(encoded, o.context);
        assert PackLoop(s, stack, o.context, o.offset, le, PackAcc(o.view, [], 0, Cursor(encoded.items, 0))) == Err(NoRepeatPolicy);
        assert PackArrayBody(s, Cursor(encoded.items, 0), stack, o.context, o.view, o.offset, le) == Err(NoRepeatPolicy);
      }
  }

  /** A count that does not resolve to a non-negative number fails the parse with that error. */
  lemma {:induction false} CountUnresolved(s: Struct, view: seq<bool>, o: ParseOpts, sink: Sink)
    requires s.Repeat? && s.policy.ByCount? && Resolve(s.policy.count, o.context, InBytes).Err?
    ensures ParseSpec(s, view, o, sink) == Err(Resolve(s.policy.count, o.context, InBytes).error)
  {
    ParseIsPositional(s, view, o, sink);
  }
}
