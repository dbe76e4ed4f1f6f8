/** What a Codex request costs (internal/agentusage/pricing.go, internal/agentusage/parsers.go). */
module CodexCost {
  import opened Text
  import opened UsageEvents
  import opened Pricing

  /** A multiplier of zero changes nothing. */
  datatype Options = Options(input: real, output: real, cost: real, reasoningAsOutput: bool)

  const LONG_CONTEXT: nat := 272_000

  function Times(amount: real, multiplier: real): real {
    if multiplier > 0.0 then amount * multiplier else amount
  }

  /** To the nearest integer, halves away from zero. */
  function Round(x: real): int {
    if x >= 0.0 then (x + 0.5).Floor else -((0.5 - x).Floor)
  }

  const SCALE: real := 1_000_000_000_000.0

  function InputCost(entry: Entry, c: TokenCounts): real {
    var fiveMinutes := if c.cacheCreation < c.cacheCreation1h then 0 else c.cacheCreation - c.cacheCreation1h;
    var oneHour := if entry.cacheCreation1h <= 0.0 then entry.cacheCreation else entry.cacheCreation1h;
    c.input as real * entry.input + c.cached as real * entry.cacheRead
    + fiveMinutes as real * entry.cacheCreation + c.cacheCreation1h as real * oneHour
  }

  function OutputCost(entry: Entry, c: TokenCounts, opts: Options): real {
    c.output as real * entry.output + if opts.reasoningAsOutput then c.reasoning as real * entry.output else 0.0
  }

  /** Before rounding. */
  function ExactCost(entry: Entry, c: TokenCounts, opts: Options): real {
    Times(Times(InputCost(entry, c), opts.input) + Times(OutputCost(entry, c, opts), opts.output), opts.cost)
  }

  function Cost(entry: Entry, c: TokenCounts, opts: Options): real {
    Round(ExactCost(entry, c, opts) * SCALE) as real / SCALE
  }

  function Normalized(model: string): string {
    ToLower(Trim(model))
  }

  predicate Astra(model: string) {
    HasPrefix(Normalized(model), "gpt-6-astra")
  }

  predicate Gpt56(model: string) {
    HasPrefix(Normalized(model), "gpt-5.6")
  }

  function FastMultiplier(model: string): real {
    var m := Normalized(model);
    if HasPrefix(m, "gpt-6-astra") || HasPrefix(m, "gpt-5.6") then 2.0
    else if HasPrefix(m, "gpt-5.5") then 2.5
    else if HasPrefix(m, "gpt-5.4") && !HasPrefix(m, "gpt-5.4-mini") then 2.0
    else 0.0
  }

  function RequestInput(c: TokenCounts): int {
    c.input + c.cached + c.cacheCreation
  }

  function CodexOptions(model: string, c: TokenCounts, fast: bool): Options {
    var long := (Astra(model) || Gpt56(model)) && RequestInput(c) > LONG_CONTEXT;
    Options(if long then 2.0 else 0.0, if long then 1.5 else 0.0,
            if fast && (Astra(model) || !long) then FastMultiplier(model) else 0.0,
            false)
  }

  function CodexCostOf(entry: Entry, model: string, c: TokenCounts, fast: bool): real {
    Cost(entry, c, CodexOptions(model, c, fast))
  }

  predicate FreeOrPriced(entry: Entry) {
    entry.input >= 0.0 && entry.output >= 0.0 && entry.cacheRead >= 0.0 && entry.cacheCreation >= 0.0
  }

  /** `d` uses at least as much of everything that is billed as `c`. */
  predicate AtLeast(d: TokenCounts, c: TokenCounts) {
    && 0 <= c.input <= d.input && 0 <= c.cached <= d.cached && 0 <= c.cacheCreation <= d.cacheCreation
    && 0 <= c.output <= d.output && c.cacheCreation1h == d.cacheCreation1h == 0
  }

  lemma TimesMonotone(x: real, y: real, multiplier: real)
    requires x <= y
    ensures Times(x, multiplier) <= Times(y, multiplier)
  {}

  lemma ProductMonotone(m: int, n: int, price: real)
    requires 0 <= m <= n && price >= 0.0
    ensures 0.0 <= m as real * price <= n as real * price
  {}

  lemma RoundMonotone(x: real, y: real)
    requires x <= y
    ensures Round(x) <= Round(y)
  {}

  lemma CostFollowsExact(entry: Entry, c: TokenCounts, copts: Options, d: TokenCounts, dopts: Options)
    requires ExactCost(entry, c, copts) <= ExactCost(entry, d, dopts)
    ensures Cost(entry, c, copts) <= Cost(entry, d, dopts)
  {
    hide ExactCost;
    RoundMonotone(ExactCost(entry, c, copts) * SCALE, ExactCost(entry, d, dopts) * SCALE);
  }

  lemma NothingCostsNothing(n: int, price: real)
    requires n == 0 || price == 0.0
    ensures n as real * price == 0.0
  {}

  lemma InputWithoutHourly(entry: Entry, c: TokenCounts)
    requires c.cacheCreation >= 0 && c.cacheCreation1h == 0
    ensures InputCost(entry, c) == c.input as real * entry.input + c.cached as real * entry.cacheRead
                                   + c.cacheCreation as real * entry.cacheCreation
  {
    NothingCostsNothing(c.cacheCreation1h, if entry.cacheCreation1h <= 0.0 then entry.cacheCreation else entry.cacheCreation1h);
  }

  lemma InputGrows(entry: Entry, c: TokenCounts, d: TokenCounts)
    requires FreeOrPriced(entry) && AtLeast(d, c)
    ensures 0.0 <= InputCost(entry, c) <= InputCost(entry, d)
  {
    InputWithoutHourly(entry, c);
    InputWithoutHourly(entry, d);
    hide InputCost;
    ProductMonotone(c.input, d.input, entry.input);
    ProductMonotone(c.cached, d.cached, entry.cacheRead);
    ProductMonotone(c.cacheCreation, d.cacheCreation, entry.cacheCreation);
  }

  lemma OutputGrows(entry: Entry, c: TokenCounts, d: TokenCounts, opts: Options)
    requires FreeOrPriced(entry) && AtLeast(d, c) && !opts.reasoningAsOutput
    ensures 0.0 <= OutputCost(entry, c, opts) <= OutputCost(entry, d, opts)
  {
    ProductMonotone(c.output, d.output, entry.output);
  }

  lemma FamiliesDiffer(model: string)
    ensures !(Astra(model) && Gpt56(model))
  {
    hide Normalized;
    var m := Normalized(model);
    if Astra(model) {
      assert m[4] == '6';
    }
  }

  /** More tokens never cost less, across the long-context step and after rounding, at standard
      speed for every model, and at fast speed for every model but gpt-5.6. */
  lemma CostGrows(entry: Entry, model: string, c: TokenCounts, d: TokenCounts, fast: bool)
    requires FreeOrPriced(entry) && AtLeast(d, c)
    requires !fast || !Gpt56(model)
    ensures CodexCostOf(entry, model, c, fast) <= CodexCostOf(entry, model, d, fast)
  {
    hide Normalized, InputCost, OutputCost, FastMultiplier, Cost;
    var copts, dopts := CodexOptions(model, c, fast), CodexOptions(model, d, fast);
    InputGrows(entry, c, d);
    OutputGrows(entry, c, d, copts);
    FamiliesDiffer(model);
    assert copts.cost == dopts.cost;
    SameOutput(entry, d, copts, dopts);
    var cin, din := InputCost(entry, c), InputCost(entry, d);
    var cout, dout := OutputCost(entry, c, copts), OutputCost(entry, d, dopts);
    TimesGrow(cin, din, copts.input, dopts.input);
    TimesGrow(cout, dout, copts.output, dopts.output);
    TimesMonotone(Times(cin, copts.input) + Times(cout, copts.output),
                  Times(din, dopts.input) + Times(dout, dopts.output), copts.cost);
    CostFollowsExact(entry, c, copts, d, dopts);
  }

  lemma TimesGrow(x: real, y: real, m: real, n: real)
    requires 0.0 <= x <= y && (m == n || (m == 0.0 && n >= 1.0))
    ensures Times(x, m) <= Times(y, n)
  {}

  lemma SameOutput(entry: Entry, c: TokenCounts, a: Options, b: Options)
    requires a.reasoningAsOutput == b.reasoningAsOutput
    ensures OutputCost(entry, c, a) == OutputCost(entry, c, b)
  {}

  function Request(input: int, output: int): TokenCounts {
    TokenCounts(input, 0, 0, 0, output, 0, 0)
  }

  lemma RequestCost(entry: Entry, input: nat, output: nat, opts: Options)
    requires !opts.reasoningAsOutput
    ensures InputCost(entry, Request(input, output)) == input as real * entry.input
    ensures OutputCost(entry, Request(input, output), opts) == output as real * entry.output
  {
    InputWithoutHourly(entry, Request(input, output));
    NothingCostsNothing(0, entry.cacheRead);
    NothingCostsNothing(0, entry.cacheCreation);
  }

  /** Enough output tokens to make half their price exceed an amount. */
  lemma EnoughOutput(price: real, amount: real) returns (n: nat)
    requires price > 0.0 && amount >= 0.0
    ensures n as real * price > 2.0 * amount
  {
    var x := 2.0 * amount / price;
    n := x.Floor + 1;
    assert n as real > x;
    assert n as real * price > x * price;
  }

  lemma RoundDrops(x: real, y: real)
    requires x > y + 1.0
    ensures Round(x) > Round(y)
  {}

  /** The exact condition. Costs grow with the tokens for all requests of a model if and only if
      the model is not gpt-5.6 at fast speed, or its output is free: past the long-context step
      gpt-5.6 loses its speed multiplier of 2, and its output costs a quarter less. */
  lemma CostGrowsExactly(entry: Entry, model: string, fast: bool)
    requires FreeOrPriced(entry)
    ensures (forall c, d | AtLeast(d, c) :: CodexCostOf(entry, model, c, fast) <= CodexCostOf(entry, model, d, fast))
            <==> (!(fast && Gpt56(model)) || entry.output == 0.0)
  {
    hide CodexCostOf, AtLeast;
    if !(fast && Gpt56(model)) {
      forall c, d | AtLeast(d, c) ensures CodexCostOf(entry, model, c, fast) <= CodexCostOf(entry, model, d, fast) {
        CostGrows(entry, model, c, d, fast);
      }
    } else if entry.output == 0.0 {
      forall c, d | AtLeast(d, c) ensures CodexCostOf(entry, model, c, fast) <= CodexCostOf(entry, model, d, fast) {
        FreeOutputGrows(entry, model, c, d);
      }
    } else {
      var n := FastDrop(entry, model);
      FastDropPair(n);
    }
  }

  lemma FastDropPair(n: nat)
    ensures AtLeast(Request(LONG_CONTEXT + 1, n), Request(LONG_CONTEXT, n))
  {}

  /** With free output, dropping the speed multiplier past the step changes nothing. */
  lemma FreeOutputGrows(entry: Entry, model: string, c: TokenCounts, d: TokenCounts)
    requires FreeOrPriced(entry) && AtLeast(d, c) && Gpt56(model) && entry.output == 0.0
    ensures CodexCostOf(entry, model, c, true) <= CodexCostOf(entry, model, d, true)
  {
    var copts, dopts := CodexOptions(model, c, true), CodexOptions(model, d, true);
    FamiliesDiffer(model);
    hide Normalized, InputCost, Cost;
    InputGrows(entry, c, d);
    assert OutputCost(entry, c, copts) == 0.0 && OutputCost(entry, d, dopts) == 0.0 by {
      NothingCostsNothing(c.output, entry.output);
      NothingCostsNothing(d.output, entry.output);
    }
    hide OutputCost;
    assert ExactCost(entry, c, copts) == 2.0 * InputCost(entry, c);
    assert ExactCost(entry, d, dopts) == 2.0 * InputCost(entry, d);
    CostFollowsExact(entry, c, copts, d, dopts);
  }

  /** A fast gpt-5.6 request just within the step costs more than one just past it. */
  lemma FastDrop(entry: Entry, model: string) returns (n: nat)
    requires FreeOrPriced(entry) && Gpt56(model) && entry.output > 0.0
    ensures CodexCostOf(entry, model, Request(LONG_CONTEXT, n), true)
            > CodexCostOf(entry, model, Request(LONG_CONTEXT + 1, n), true)
  {
    n := EnoughOutput(entry.output, 2.0 * entry.input + 1.0);
    var c, d := Request(LONG_CONTEXT, n), Request(LONG_CONTEXT + 1, n);
    var copts, dopts := CodexOptions(model, c, true), CodexOptions(model, d, true);
    FamiliesDiffer(model);
    RequestCost(entry, LONG_CONTEXT, n, copts);
    RequestCost(entry, LONG_CONTEXT + 1, n, dopts);
    hide Normalized, InputCost, OutputCost, Round;
    var x, y := ExactCost(entry, c, copts), ExactCost(entry, d, dopts);
    assert x == 2.0 * (272000.0 * entry.input + n as real * entry.output);
    assert y == 2.0 * (272001.0 * entry.input) + 1.5 * (n as real * entry.output);
    assert x > y + 1.0;
    hide ExactCost;
    RoundDrops(x * SCALE, y * SCALE);
  }

  // ---------- what each token costs ----------

  const NO_TOKENS := TokenCounts(0, 0, 0, 0, 0, 0, 0)

  /** The price of one token after all multipliers. */
  function UnitCost(price: real, multiplier: real, opts: Options): real {
    Times(Times(price, multiplier), opts.cost)
  }

  lemma TimesAdds(x: real, y: real, multiplier: real)
    ensures Times(x + y, multiplier) == Times(x, multiplier) + Times(y, multiplier)
  {}

  lemma OneMore(n: int, price: real)
    ensures (n + 1) as real * price == n as real * price + price
  {}

  lemma CostSplits(entry: Entry, c: TokenCounts, opts: Options)
    ensures ExactCost(entry, c, opts) ==
            UnitCost(InputCost(entry, c), opts.input, opts) + UnitCost(OutputCost(entry, c, opts), opts.output, opts)
  {
    hide InputCost, OutputCost;
    TimesAdds(Times(InputCost(entry, c), opts.input), Times(OutputCost(entry, c, opts), opts.output), opts.cost);
  }

  /** If one more token adds `price` to the input side, the whole cost grows by its unit cost. */
  lemma InputUnit(entry: Entry, c: TokenCounts, d: TokenCounts, opts: Options, price: real)
    requires InputCost(entry, d) == InputCost(entry, c) + price && OutputCost(entry, d, opts) == OutputCost(entry, c, opts)
    ensures ExactCost(entry, d, opts) == ExactCost(entry, c, opts) + UnitCost(price, opts.input, opts)
  {
    CostSplits(entry, c, opts);
    CostSplits(entry, d, opts);
    hide InputCost, OutputCost, ExactCost;
    TimesAdds(InputCost(entry, c), price, opts.input);
    TimesAdds(Times(InputCost(entry, c), opts.input), Times(price, opts.input), opts.cost);
  }

  lemma OutputUnit(entry: Entry, c: TokenCounts, d: TokenCounts, opts: Options, price: real)
    requires InputCost(entry, d) == InputCost(entry, c) && OutputCost(entry, d, opts) == OutputCost(entry, c, opts) + price
    ensures ExactCost(entry, d, opts) == ExactCost(entry, c, opts) + UnitCost(price, opts.output, opts)
  {
    CostSplits(entry, c, opts);
    CostSplits(entry, d, opts);
    hide InputCost, OutputCost, ExactCost;
    TimesAdds(OutputCost(entry, c, opts), price, opts.output);
    TimesAdds(Times(OutputCost(entry, c, opts), opts.output), Times(price, opts.output), opts.cost);
  }

  lemma InputOneMore(entry: Entry, c: TokenCounts)
    requires 0 <= c.cacheCreation1h <= c.cacheCreation
    ensures InputCost(entry, c.(input := c.input + 1)) == InputCost(entry, c) + entry.input
  {
    OneMore(c.input, entry.input);
  }

  lemma CachedOneMore(entry: Entry, c: TokenCounts)
    requires 0 <= c.cacheCreation1h <= c.cacheCreation
    ensures InputCost(entry, c.(cached := c.cached + 1)) == InputCost(entry, c) + entry.cacheRead
  {
    OneMore(c.cached, entry.cacheRead);
  }

  lemma CreationOneMore(entry: Entry, c: TokenCounts)
    requires 0 <= c.cacheCreation1h <= c.cacheCreation
    ensures InputCost(entry, c.(cacheCreation := c.cacheCreation + 1)) == InputCost(entry, c) + entry.cacheCreation
  {
    OneMore(c.cacheCreation - c.cacheCreation1h, entry.cacheCreation);
  }

  function HourlyPrice(entry: Entry): real {
    if entry.cacheCreation1h > 0.0 then entry.cacheCreation1h else entry.cacheCreation
  }

  lemma HourlyOneMore(entry: Entry, c: TokenCounts)
    requires 0 <= c.cacheCreation1h <= c.cacheCreation
    ensures InputCost(entry, c.(cacheCreation := c.cacheCreation + 1, cacheCreation1h := c.cacheCreation1h + 1)) ==
            InputCost(entry, c) + HourlyPrice(entry)
  {
    OneMore(c.cacheCreation1h, HourlyPrice(entry));
  }

  lemma OutputIgnoresInput(entry: Entry, c: TokenCounts, d: TokenCounts, opts: Options)
    requires c.output == d.output && c.reasoning == d.reasoning
    ensures OutputCost(entry, c, opts) == OutputCost(entry, d, opts)
  {}

  /** Every kind of token costs its own price, whatever else the request uses: a cached one the
      cache-read price, a cache write the creation price, or the one-hour price if it has one. */
  lemma EachInputTokenCostsItsPrice(entry: Entry, c: TokenCounts, opts: Options)
    requires 0 <= c.cacheCreation1h <= c.cacheCreation
    ensures ExactCost(entry, c.(input := c.input + 1), opts) ==
            ExactCost(entry, c, opts) + UnitCost(entry.input, opts.input, opts)
    ensures ExactCost(entry, c.(cached := c.cached + 1), opts) ==
            ExactCost(entry, c, opts) + UnitCost(entry.cacheRead, opts.input, opts)
    ensures ExactCost(entry, c.(cacheCreation := c.cacheCreation + 1), opts) ==
            ExactCost(entry, c, opts) + UnitCost(entry.cacheCreation, opts.input, opts)
    ensures ExactCost(entry, c.(cacheCreation := c.cacheCreation + 1, cacheCreation1h := c.cacheCreation1h + 1), opts) ==
            ExactCost(entry, c, opts) + UnitCost(HourlyPrice(entry), opts.input, opts)
  {
    hide InputCost, OutputCost, ExactCost, UnitCost, HourlyPrice;
    var one := c.(input := c.input + 1);
    InputOneMore(entry, c);
    OutputIgnoresInput(entry, c, one, opts);
    InputUnit(entry, c, one, opts, entry.input);
    var two := c.(cached := c.cached + 1);
    CachedOneMore(entry, c);
    OutputIgnoresInput(entry, c, two, opts);
    InputUnit(entry, c, two, opts, entry.cacheRead);
    var three := c.(cacheCreation := c.cacheCreation + 1);
    CreationOneMore(entry, c);
    OutputIgnoresInput(entry, c, three, opts);
    InputUnit(entry, c, three, opts, entry.cacheCreation);
    var four := c.(cacheCreation := c.cacheCreation + 1, cacheCreation1h := c.cacheCreation1h + 1);
    HourlyOneMore(entry, c);
    OutputIgnoresInput(entry, c, four, opts);
    InputUnit(entry, c, four, opts, HourlyPrice(entry));
  }

  lemma OutputOneMore(entry: Entry, c: TokenCounts, opts: Options)
    ensures OutputCost(entry, c.(output := c.output + 1), opts) == OutputCost(entry, c, opts) + entry.output
    ensures InputCost(entry, c.(output := c.output + 1)) == InputCost(entry, c)
  {
    OneMore(c.output, entry.output);
  }

  lemma ReasoningOneMore(entry: Entry, c: TokenCounts, opts: Options)
    ensures OutputCost(entry, c.(reasoning := c.reasoning + 1), opts) ==
            OutputCost(entry, c, opts) + if opts.reasoningAsOutput then entry.output else 0.0
    ensures InputCost(entry, c.(reasoning := c.reasoning + 1)) == InputCost(entry, c)
  {
    OneMore(c.reasoning, entry.output);
  }

  lemma NoTokensCostNothing(entry: Entry, opts: Options)
    ensures InputCost(entry, NO_TOKENS) == 0.0 && OutputCost(entry, NO_TOKENS, opts) == 0.0
  {
    InputWithoutHourly(entry, NO_TOKENS);
    NothingCostsNothing(0, entry.input);
    NothingCostsNothing(0, entry.cacheRead);
    NothingCostsNothing(0, entry.cacheCreation);
    NothingCostsNothing(0, entry.output);
  }

  /** Output costs the output price, and so does reasoning where it is billed; no tokens cost
      nothing. */
  lemma EachOutputTokenCostsItsPrice(entry: Entry, c: TokenCounts, opts: Options)
    ensures ExactCost(entry, c.(output := c.output + 1), opts) ==
            ExactCost(entry, c, opts) + UnitCost(entry.output, opts.output, opts)
    ensures ExactCost(entry, c.(reasoning := c.reasoning + 1), opts) ==
            ExactCost(entry, c, opts)
            + UnitCost(if opts.reasoningAsOutput then entry.output else 0.0, opts.output, opts)
    ensures ExactCost(entry, NO_TOKENS, opts) == 0.0
  {
    CostSplits(entry, NO_TOKENS, opts);
    NoTokensCostNothing(entry, opts);
    FreeUnit(opts);
    hide InputCost, OutputCost, ExactCost, UnitCost;
    OutputOneMore(entry, c, opts);
    OutputUnit(entry, c, c.(output := c.output + 1), opts, entry.output);
    ReasoningOneMore(entry, c, opts);
    OutputUnit(entry, c, c.(reasoning := c.reasoning + 1), opts, if opts.reasoningAsOutput then entry.output else 0.0);
  }

  lemma FreeUnit(opts: Options)
    ensures UnitCost(0.0, opts.input, opts) == 0.0 && UnitCost(0.0, opts.output, opts) == 0.0
  {}

  lemma RoundIsNearest(x: real)
    ensures -0.5 <= x - Round(x) as real <= 0.5
  {}

  /** The cost is the exact one to the nearest multiple of 1e-12. */
  lemma CostIsRounded(entry: Entry, c: TokenCounts, opts: Options)
    ensures var units := Cost(entry, c, opts) * SCALE;
            units == units.Floor as real && -0.5 <= ExactCost(entry, c, opts) * SCALE - units <= 0.5
  {
    hide ExactCost, Round;
    RoundIsNearest(ExactCost(entry, c, opts) * SCALE);
  }
}
