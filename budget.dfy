/**
 * `Repeat` by bytes: passes run while the offset is below the budget, and the repeat fails unless
 * the last pass ends exactly on it. Over plain items of positive total width this is a repeat by
 * count of the least number of passes that reach the budget, followed by the overrun check; a pass
 * of width zero never reaches a positive budget.
 */
module Budget {
  import opened Wrappers
  import opened Codec
  import opened Document
  import opened Structs
  import opened Transcode
  import opened Layouts
  import opened Positional
  import opened Repetition

  /** The passes of width `w` a budget loop makes from `offset`: the least number that reaches `budget`. */
  function BudgetPasses(w: nat, budget: nat, offset: nat): (n: nat)
    requires w > 0
    ensures offset + Span(w, n) >= budget
    ensures n > 0 ==> offset + Span(w, n - 1) < budget
    decreases if offset < budget then budget - offset else 0
  {
    if offset >= budget then 0 else 1 + BudgetPasses(w, budget, offset + w)
  }

  /** The passes a repeat by bytes over items of positive width makes in `context`. */
  function BytePasses(s: Struct, context: Ctx): nat
    requires s.Repeat? && s.policy.ByBytes? && Resolve(s.policy.budget, context, InBytes).Ok? && PassWidth(s.items) > 0
  {
    BudgetPasses(PassWidth(s.items), Resolve(s.policy.budget, context, InBytes).value, 0)
  }

  // ---- a pass over plain items always advances by the pass width ----

  lemma {:induction false} ParsePassAdvance(s: Struct, i: nat, view: seq<bool>, base: nat, littleEndian: Option<bool>, acc: ParseAcc)
    requires s.IsArray() && PlainItems(s.items) && i <= |s.items|
    ensures var r := ParsePass(s, i, view, base, littleEndian, acc);
      r.Ok? ==> r.value.offset + ItemStart(s.items, i) == acc.offset + PassWidth(s.items)
    decreases |s.items| - i
  {
    if i < |s.items| {
      var r, next := ParseItemNext(s, i, view, base, littleEndian, acc);
      if r.Ok? {
        ParsePassAdvance(s, i + 1, view, base, littleEndian, next);
        ParseAdvanceAfter(ParsePass(s, i, view, base, littleEndian, acc), ParsePass(s, i + 1, view, base, littleEndian, next),
                          acc.offset, next.offset, ItemStart(s.items, i), ItemStart(s.items, i + 1), s.items[i].width, PassWidth(s.items));
      }
    }
  }

  /** Item `i` of a parse pass: a plain item that succeeds takes its width and hands on to the next. */
  lemma {:induction false} ParseItemNext(s: Struct, i: nat, view: seq<bool>, base: nat, littleEndian: Option<bool>, acc: ParseAcc)
    returns (r: Result<Parsed>, next: ParseAcc)
    requires s.IsArray() && PlainItems(s.items) && i < |s.items|
    ensures s.items[i].Primitive? && ItemStart(s.items, i + 1) == ItemStart(s.items, i) + s.items[i].width
    ensures r.Err? ==> ParsePass(s, i, view, base, littleEndian, acc).Err?
    ensures r.Ok? ==>
      && next.offset == acc.offset + s.items[i].width
      && ParsePass(s, i, view, base, littleEndian, acc) == ParsePass(s, i + 1, view, base, littleEndian, next)
  {
    var c := s.items[i];
    r := ParseSpec(c, view, ParseOpts(base + acc.offset, littleEndian, acc.stack), Push);
    ParsePlainSize(c, view, ParseOpts(base + acc.offset, littleEndian, acc.stack), Push);
    next := if r.Ok? then ParseAcc(r.value.context, acc.offset + r.value.size) else acc;
    if r.Ok? {
      ParsePassThen(s, i, view, base, littleEndian, acc, r, next);
    }
  }

  /** A plain item's parse, when it succeeds, takes the item's width. */
  lemma {:induction false} ParsePlainSize(c: Struct, view: seq<bool>, o: ParseOpts, sink: Sink)
    requires Plain(c)
    ensures var r := ParseSpec(c, view, o, sink); r.Ok? ==> r.value.size == c.width
  {
  }

  /** A successful item hands on to the next. */
  lemma {:induction false} ParsePassThen(s: Struct, i: nat, view: seq<bool>, base: nat, littleEndian: Option<bool>, acc: ParseAcc,
                                         r: Result<Parsed>, next: ParseAcc)
    requires s.IsArray() && i < |s.items|
    requires r == ParseSpec(s.items[i], view, ParseOpts(base + acc.offset, littleEndian, acc.stack), Push) && r.Ok?
    requires next == ParseAcc(r.value.context, acc.offset + r.value.size)
    ensures ParsePass(s, i, view, base, littleEndian, acc) == ParsePass(s, i + 1, view, base, littleEndian, next)
  {
  }

  /** The offset after items `i` on, from that after items `i + 1` on. */
  lemma {:induction false} ParseAdvanceAfter(here: Result<ParseAcc>, after: Result<ParseAcc>, offset: nat, offset': nat, at: nat, at': nat,
                                             width: nat, total: nat)
    requires here == after && offset' == offset + width && at' == at + width
    requires after.Ok? ==> after.value.offset + at' == offset' + total
    ensures here.Ok? ==> here.value.offset + at == offset + total
  {
  }

  lemma {:induction false} PackPassAdvance(s: Struct, i: nat, stack: Ctx, base: nat, littleEndian: Option<bool>, acc: PackAcc)
    requires s.IsArray() && PlainItems(s.items) && i <= |s.items|
    ensures var r := PackPass(s, i, stack, base, littleEndian, acc);
      r.Ok? ==> r.value.offset + ItemStart(s.items, i) == acc.offset + PassWidth(s.items)
    decreases |s.items| - i
  {
    if i < |s.items| {
      var c := s.items[i];
      var r := PackSpec(c, acc.feed, ChildOpts(acc, base, littleEndian, stack));
      PackPlainSize(c, acc.feed, ChildOpts(acc, base, littleEndian, stack));
      if r.Ok? {
        var next := Absorb(acc, r.value, r.value.feed);
        PackPassAdvance(s, i + 1, stack, base, littleEndian, next);
        PackPassThen(s, i, stack, base, littleEndian, acc, r, next);
        PackAdvanceAfter(PackPass(s, i, stack, base, littleEndian, acc), PackPass(s, i + 1, stack, base, littleEndian, next),
                         acc.offset, next.offset, ItemStart(s.items, i), ItemStart(s.items, i + 1), c.width, PassWidth(s.items));
      }
    }
  }

  /** A plain item's pack, when it succeeds, takes the item's width. */
  lemma {:induction false} PackPlainSize(c: Struct, source: Feed, o: PackOpts)
    requires Plain(c)
    ensures var r := PackSpec(c, source, o); r.Ok? ==> r.value.size == c.width
  {
  }

  lemma {:induction false} PackPassThen(s: Struct, i: nat, stack: Ctx, base: nat, littleEndian: Option<bool>, acc: PackAcc,
                                        r: Result<Packed>, next: PackAcc)
    requires s.IsArray() && i < |s.items|
    requires r == PackSpec(s.items[i], acc.feed, ChildOpts(acc, base, littleEndian, stack)) && r.Ok?
    requires next == Absorb(acc, r.value, r.value.feed)
    ensures PackPass(s, i, stack, base, littleEndian, acc) == PackPass(s, i + 1, stack, base, littleEndian, next)
  {
  }

  lemma {:induction false} PackAdvanceAfter(here: Result<PackAcc>, after: Result<PackAcc>, offset: nat, offset': nat, at: nat, at': nat,
                                            width: nat, total: nat)
    requires here == after && offset' == offset + width && at' == at + width
    requires after.Ok? ==> after.value.offset + at' == offset' + total
    ensures here.Ok? ==> here.value.offset + at == offset + total
  {
  }

  // ---- by bytes is by count ----

  /** Over plain items of positive width, the budget loop is the count loop of `BudgetPasses` passes. */
  lemma {:induction false} ParseBudgetIsCount(s: Struct, budget: nat, passes: nat, k: nat, view: seq<bool>, base: nat,
                                              littleEndian: Option<bool>, acc: ParseAcc)
    requires s.IsArray() && PlainItems(s.items) && PassWidth(s.items) > 0
    requires k <= passes && passes - k == BudgetPasses(PassWidth(s.items), budget, acc.offset)
    ensures ParseBudget(s, budget, view, base, littleEndian, acc) == ParseCount(s, passes, k, view, base, littleEndian, acc)
    decreases passes - k
  {
    if acc.offset < budget {
      var r1 := ParsePass(s, 0, view, base, littleEndian, acc);
      ParseBudgetFirst(s, budget, passes, k, view, base, littleEndian, acc, r1);
      if r1.Ok? {
        ParseBudgetIsCount(s, budget, passes, k + 1, view, base, littleEndian, r1.value);
      }
    }
  }

  /** The first pass of both loops is the same pass; when it succeeds both go on from where it ends. */
  lemma {:induction false} ParseBudgetFirst(s: Struct, budget: nat, passes: nat, k: nat, view: seq<bool>, base: nat,
                                            littleEndian: Option<bool>, acc: ParseAcc, r1: Result<ParseAcc>)
    requires s.IsArray() && PlainItems(s.items) && PassWidth(s.items) > 0 && acc.offset < budget
    requires k <= passes && passes - k == BudgetPasses(PassWidth(s.items), budget, acc.offset)
    requires r1 == ParsePass(s, 0, view, base, littleEndian, acc)
    ensures k < passes
    ensures r1.Err? ==> (ParseBudget(s, budget, view, base, littleEndian, acc) == r1
                    && ParseCount(s, passes, k, view, base, littleEndian, acc) == r1)
    ensures r1.Ok? ==>
      && ParseBudget(s, budget, view, base, littleEndian, acc) == ParseBudget(s, budget, view, base, littleEndian, r1.value)
      && ParseCount(s, passes, k, view, base, littleEndian, acc) == ParseCount(s, passes, k + 1, view, base, littleEndian, r1.value)
      && passes - (k + 1) == BudgetPasses(PassWidth(s.items), budget, r1.value.offset)
  {
    assert ItemStart(s.items, 0) == 0;
    ParsePassAdvance(s, 0, view, base, littleEndian, acc);
    if r1.Ok? {
      BudgetStep(PassWidth(s.items), budget, acc.offset, r1.value.offset);
    }
  }

  lemma {:induction false} PackBudgetIsCount(s: Struct, budget: nat, passes: nat, k: nat, stack: Ctx, base: nat,
                                             littleEndian: Option<bool>, acc: PackAcc)
    requires s.IsArray() && PlainItems(s.items) && PassWidth(s.items) > 0
    requires k <= passes && passes - k == BudgetPasses(PassWidth(s.items), budget, acc.offset)
    ensures PackBudget(s, budget, stack, base, littleEndian, acc) == PackCount(s, passes, k, stack, base, littleEndian, acc)
    decreases passes - k
  {
    if acc.offset < budget {
      var r1 := PackPass(s, 0, stack, base, littleEndian, acc);
      PackBudgetFirst(s, budget, passes, k, stack, base, littleEndian, acc, r1);
      if r1.Ok? {
        PackBudgetIsCount(s, budget, passes, k + 1, stack, base, littleEndian, r1.value);
      }
    }
  }

  lemma {:induction false} PackBudgetFirst(s: Struct, budget: nat, passes: nat, k: nat, stack: Ctx, base: nat,
                                           littleEndian: Option<bool>, acc: PackAcc, r1: Result<PackAcc>)
    requires s.IsArray() && PlainItems(s.items) && PassWidth(s.items) > 0 && acc.offset < budget
    requires k <= passes && passes - k == BudgetPasses(PassWidth(s.items), budget, acc.offset)
    requires r1 == PackPass(s, 0, stack, base, littleEndian, acc)
    ensures k < passes
    ensures r1.Err? ==> (PackBudget(s, budget, stack, base, littleEndian, acc) == r1
                    && PackCount(s, passes, k, stack, base, littleEndian, acc) == r1)
    ensures r1.Ok? ==>
      && PackBudget(s, budget, stack, base, littleEndian, acc) == PackBudget(s, budget, stack, base, littleEndian, r1.value)
      && PackCount(s, passes, k, stack, base, littleEndian, acc) == PackCount(s, passes, k + 1, stack, base, littleEndian, r1.value)
      && passes - (k + 1) == BudgetPasses(PassWidth(s.items), budget, r1.value.offset)
  {
    assert ItemStart(s.items, 0) == 0;
    PackPassAdvance(s, 0, stack, base, littleEndian, acc);
    if r1.Ok? {
      BudgetStep(PassWidth(s.items), budget, acc.offset, r1.value.offset);
    }
  }

  /** Below the budget, the loop makes one pass more than it makes from one pass width further on. */
  lemma {:induction false} BudgetStep(w: nat, budget: nat, offset: nat, offset': nat)
    requires w > 0 && offset < budget && offset' == offset + w
    ensures BudgetPasses(w, budget, offset) == 1 + BudgetPasses(w, budget, offset')
  {
  }

  // ---- the repeat ----

  /**
   * `Repeat` by bytes, whatever its items: a parse that succeeds has read exactly the budget, the
   * loop having passed while below it and thrown if the last pass went beyond it.
   */
  lemma {:induction false} BytesParseExact(s: Struct, view: seq<bool>, o: ParseOpts, sink: Sink)
    requires s.Repeat? && s.policy.ByBytes?
    ensures var r := ParseSpec(s, view, o, sink);
      r.Ok? ==> Resolve(s.policy.budget, o.context, InBytes).Ok? && r.value.size == Resolve(s.policy.budget, o.context, InBytes).value
  {
    var le := Endian(o.littleEndian, s.tc.littleEndian);
    ParseIsPositional(s, view, o, sink);
    ParseLoopExact(s, view, o.context, o.offset, le, ParseAcc(SetContext(List([]), o.context), 0));
  }

  lemma {:induction false} ParseLoopExact(s: Struct, view: seq<bool>, parent: Ctx, base: nat, littleEndian: Option<bool>, acc: ParseAcc)
    requires s.Repeat? && s.policy.ByBytes?
    ensures var r := ParseLoop(s, view, parent, base, littleEndian, acc);
      r.Ok? ==> Resolve(s.policy.budget, parent, InBytes).Ok? && r.value.offset == Resolve(s.policy.budget, parent, InBytes).value
  {
  }

  /** The same for `pack`: a pack that succeeds has written exactly the budget. */
  lemma {:induction false} BytesPackExact(s: Struct, source: Feed, o: PackOpts)
    requires s.Repeat? && s.policy.ByBytes?
    ensures var r := PackSpec(s, source, o);
      r.Ok? ==> Resolve(s.policy.budget, o.context, InBytes).Ok? && r.value.size == Resolve(s.policy.budget, o.context, InBytes).value
  {
    PackIsPositional(s, source, o);
    match FetchAndEncode(source, s.tc.encode, o.context)
    case Err(_) =>
    case Ok((encoded, feed)) =>
      if encoded.List? {
        var le := Endian(o.littleEndian, s.tc.littleEndian);
        PackLoopExact(s, SetContext(encoded, o.context), o.context, o.offset, le, PackAcc(o.view, [], 0, Cursor(encoded.items, 0)));
      }
  }

  lemma {:induction false} PackLoopExact(s: Struct, stack: Ctx, parent: Ctx, base: nat, littleEndian: Option<bool>, acc: PackAcc)
    requires s.Repeat? && s.policy.ByBytes?
    ensures var r := PackLoop(s, stack, parent, base, littleEndian, acc);
      r.Ok? ==> Resolve(s.policy.budget, parent, InBytes).Ok? && r.value.offset == Resolve(s.policy.budget, parent, InBytes).value
  {
  }

  /**
   * `Repeat` by bytes over plain items of positive width, parsing a region that holds every pass the
   * loop makes: the passes run until they reach the budget; landing on it, the repeat reads what
   * those passes read, as one list, in exactly the budget; passing it, the repeat throws.
   */
  lemma {:induction false} BytesParse(s: Struct, view: seq<bool>, offset: nat, littleEndian: Option<bool>, context: Ctx)
    requires s.Repeat? && s.policy.ByBytes? && PlainItems(s.items) && PassWidth(s.items) > 0
    requires Resolve(s.policy.budget, context, InBytes).Ok?
    requires offset + Span(PassWidth(s.items), BytePasses(s, context)) <= |view|
    ensures var budget := Resolve(s.policy.budget, context, InBytes).value;
      var n := BytePasses(s, context);
      var values := List(ReadPasses(s.items, n, view, offset, Endian(littleEndian, s.tc.littleEndian)));
      ParseSpec(s, view, ParseOpts(offset, littleEndian, context), Drop)
        == if Span(PassWidth(s.items), n) == budget
           then Ok(Parsed(if s.tc.decode.Some? then s.tc.decode.value([values], context) else values, budget, context))
           else Err(Overrun(budget))
  {
    var le := Endian(littleEndian, s.tc.littleEndian);
    var budget := Resolve(s.policy.budget, context, InBytes).value;
    var n := BytePasses(s, context);
    var start := ParseAcc([List([])] + context, 0);
    ParseIsPositional(s, view, ParseOpts(offset, littleEndian, context), Drop);
    ParseBudgetIsCount(s, budget, n, 0, view, offset, le, start);
    ParseCountPlain(s, n, 0, n, view, offset, le, [], context, 0, offset, start);
    var back := ReadPasses(s.items, n, view, offset, le);
    assert [] + back == back;
  }

  /**
   * `Repeat` by bytes over plain items of positive width, packing a list into a shared region with
   * room for every pass the loop makes: the passes run until they reach the budget, pulling from the
   * one iterator; landing on it, the repeat is the count repeat of that many passes; passing it, the
   * repeat throws, unless the list ran out first.
   */
  lemma {:induction false} BytesPack(s: Struct, values: seq<Doc>, region: seq<bool>, offset: nat, littleEndian: Option<bool>, context: Ctx)
    requires s.Repeat? && s.policy.ByBytes? && PlainItems(s.items) && PassWidth(s.items) > 0 && s.tc.encode.None? && Numbers(values)
    requires Resolve(s.policy.budget, context, InBytes).Ok?
    requires offset + Span(PassWidth(s.items), BytePasses(s, context)) <= |region|
    ensures var budget := Resolve(s.policy.budget, context, InBytes).value;
      var n := BytePasses(s, context);
      var p := PackSpec(s, Given(List(values)), PackOpts(Some(region), offset, littleEndian, context));
      if Span(PassWidth(s.items), n) == budget
      then RepeatPacked(p, s.items, n, values, region, offset, Endian(littleEndian, s.tc.littleEndian))
      else p == if Span(|s.items|, n) <= |values| then Err(Overrun(budget)) else Err(InsufficientData)
  {
    var le := Endian(littleEndian, s.tc.littleEndian);
    var o := PackOpts(Some(region), offset, littleEndian, context);
    var budget := Resolve(s.policy.budget, context, InBytes).value;
    var n := BytePasses(s, context);
    var stack := SetContext(List(values), context);
    var start := PackAcc(Some(region), [], 0, Cursor(values, 0));
    PackBudgetIsCount(s, budget, n, 0, stack, offset, le, start);
    PackCountPlain(s, n, 0, n, stack, offset, 0, 0, le, start);
    var r := PackLoop(s, stack, context, offset, le, start);
    PackIsPositional(s, Given(List(values)), o);
    PositionalGiven(s, values, o);
    LoopBody(s, Cursor(values, 0), stack, context, region, offset, le, r);
    var c := PackCount(s, n, 0, stack, offset, le, start);
    BudgetChecked(r, c, budget, Span(PassWidth(s.items), n));
    if Span(PassWidth(s.items), n) == budget {
      PackedFromCount(PackSpec(s, Given(List(values)), o), r, s.items, n, values, region, offset, le);
    }
  }

  /**
   * `Repeat` by bytes stops at its budget, not at the end of its list: packing a list longer than
   * the passes that land on the budget take succeeds, and parsing the result gives back only the
   * elements those passes took; the rest of the list is ignored.
   */
  lemma {:induction false} BytesPackIgnoresRest(s: Struct, values: seq<Doc>, region: seq<bool>, offset: nat, littleEndian: Option<bool>,
                                                context: Ctx)
    requires s.Repeat? && s.policy.ByBytes? && PlainItems(s.items) && PassWidth(s.items) > 0
    requires s.tc.encode.None? && s.tc.decode.None? && Numbers(values)
    requires Resolve(s.policy.budget, context, InBytes).Ok?
    requires Span(PassWidth(s.items), BytePasses(s, context)) == Resolve(s.policy.budget, context, InBytes).value
    requires Span(|s.items|, BytePasses(s, context)) < |values| && PassesFit(s.items, BytePasses(s, context), values, 0)
    requires offset + Resolve(s.policy.budget, context, InBytes).value <= |region|
    ensures var budget := Resolve(s.policy.budget, context, InBytes).value;
      var p := PackSpec(s, Given(List(values)), PackOpts(Some(region), offset, littleEndian, context));
      && p.Ok? && p.value.size == budget
      && ParseSpec(s, p.value.buffer, ParseOpts(offset, littleEndian, context), Drop)
           == Ok(Parsed(List(values[.. Span(|s.items|, BytePasses(s, context))]), budget, context))
  {
    var le := Endian(littleEndian, s.tc.littleEndian);
    var n := BytePasses(s, context);
    BytesPack(s, values, region, offset, littleEndian, context);
    var packed := PackSpec(s, Given(List(values)), PackOpts(Some(region), offset, littleEndian, context)).value.buffer;
    BytesParse(s, packed, offset, littleEndian, context);
    ReadPassesBack(packed, s.items, n, offset, values, 0, le);
  }

  /** The budget check after the passes: the count loop's result, or the overrun. */
  lemma {:induction false} BudgetChecked(r: Result<PackAcc>, c: Result<PackAcc>, budget: nat, reach: nat)
    requires reach >= budget
    requires c.Ok? ==> c.value.offset == reach
    requires r == match c case Err(e) => Err(e) case Ok(acc') => if acc'.offset > budget then Err(Overrun(budget)) else Ok(acc')
    ensures reach == budget ==> r == c
    ensures reach > budget ==> r == if c.Ok? then Err(Overrun(budget)) else c
  {
  }

  /**
   * `Repeat` by bytes over plain items of total width zero, with a positive budget and the offset
   * inside the region: every pass succeeds without advancing, a loop the source never leaves, which
   * the model reports as `Diverges`.
   */
  lemma {:induction false} BytesParseDiverges(s: Struct, view: seq<bool>, offset: nat, littleEndian: Option<bool>, context: Ctx)
    requires s.Repeat? && s.policy.ByBytes? && PlainItems(s.items) && PassWidth(s.items) == 0
    requires Resolve(s.policy.budget, context, InBytes).Ok? && Resolve(s.policy.budget, context, InBytes).value > 0
    requires offset <= |view|
    ensures ParseSpec(s, view, ParseOpts(offset, littleEndian, context), Drop) == Err(Diverges)
  {
    var le := Endian(littleEndian, s.tc.littleEndian);
    var start := ParseAcc([List([])] + context, 0);
    ParseIsPositional(s, view, ParseOpts(offset, littleEndian, context), Drop);
    assert ItemStart(s.items, 0) == 0;
    ParsePassPlain(s, 0, view, offset, 0, le, [], context, start);
    var budget := Resolve(s.policy.budget, context, InBytes).value;
    assert ParsePass(s, 0, view, offset, le, start).value.offset == start.offset;
    assert ParseBudget(s, budget, view, offset, le, start) == Err(Diverges);
    assert ParseLoop(s, view, context, offset, le, start) == Err(Diverges);
  }

  /**
   * The same for `pack`: with no items a pass takes nothing from the list and the loop never leaves
   * it (`Diverges`); otherwise every pass takes one element per item, and the list runs out.
   */
  lemma {:induction false} BytesPackDiverges(s: Struct, values: seq<Doc>, region: seq<bool>, offset: nat, littleEndian: Option<bool>,
                                             context: Ctx)
    requires s.Repeat? && s.policy.ByBytes? && PlainItems(s.items) && PassWidth(s.items) == 0 && s.tc.encode.None? && Numbers(values)
    requires Resolve(s.policy.budget, context, InBytes).Ok? && Resolve(s.policy.budget, context, InBytes).value > 0
    requires offset <= |region|
    ensures PackSpec(s, Given(List(values)), PackOpts(Some(region), offset, littleEndian, context))
      == if |s.items| == 0 then Err(Diverges) else Err(InsufficientData)
  {
    var le := Endian(littleEndian, s.tc.littleEndian);
    var o := PackOpts(Some(region), offset, littleEndian, context);
    var stack := SetContext(List(values), context);
    var start := PackAcc(Some(region), [], 0, Cursor(values, 0));
    var budget := Resolve(s.policy.budget, context, InBytes).value;
    PackBudgetStalls(s, budget, stack, offset, le, start);
    var r := PackLoop(s, stack, context, offset, le, start);
    PackIsPositional(s, Given(List(values)), o);
    PositionalGiven(s, values, o);
    LoopBody(s, Cursor(values, 0), stack, context, region, offset, le, r);
  }

  /** Passes of width zero from a cursor anywhere in the list: `Diverges` with no items, the list running out otherwise. */
  lemma {:induction false} PackBudgetStalls(s: Struct, budget: nat, stack: Ctx, base: nat, littleEndian: Option<bool>, acc: PackAcc)
    requires s.IsArray() && PlainItems(s.items) && PassWidth(s.items) == 0 && acc.offset < budget
    requires acc.view.Some? && base + acc.offset <= |acc.view.value|
    requires acc.feed.Cursor? && Numbers(acc.feed.items) && acc.feed.next <= |acc.feed.items|
    ensures PackBudget(s, budget, stack, base, littleEndian, acc) == if |s.items| == 0 then Err(Diverges) else Err(InsufficientData)
    decreases |acc.feed.items| - acc.feed.next
  {
    var values := acc.feed.items;
    var first := acc.feed.next;
    assert ItemStart(s.items, 0) == 0;
    PackPassPlain(s, 0, stack, base, acc.offset, first, littleEndian, acc);
    var r := PackPass(s, 0, stack, base, littleEndian, acc);
    if r.Ok? {
      assert r.value.offset == acc.offset && r.value.feed == Cursor(values, first + |s.items|);
      if |s.items| > 0 {
        PackBudgetStalls(s, budget, stack, base, littleEndian, r.value);
      }
    }
  }
}
