/** Prices per million tokens and the cost of a request. */
module Pricing {
  import opened Rounding

  /** US cents per million input and output tokens; every listed price has at most two decimals. */
  datatype Rates = Rates(input: nat, output: nat)

  const DEFAULT_RATES := Rates(100, 300)

  const PRICING: map<(string, string), Rates> := map[
    ("openai", "gpt-4o") := Rates(250, 1000),
    ("openai", "gpt-4o-mini") := Rates(15, 60),
    ("openai", "gpt-4.1") := Rates(200, 800),
    ("openai", "gpt-4.1-mini") := Rates(40, 160),
    ("openai", "gpt-4.1-nano") := Rates(10, 40),
    ("openai", "o3") := Rates(200, 800),
    ("openai", "o4-mini") := Rates(110, 440),
    ("anthropic", "claude-sonnet-4-20250514") := Rates(300, 1500),
    ("anthropic", "claude-opus-4-20250514") := Rates(1500, 7500),
    ("anthropic", "claude-3-5-haiku-20241022") := Rates(80, 400),
    ("google", "gemini-2.5-flash") := Rates(15, 60),
    ("google", "gemini-2.5-pro") := Rates(125, 1000),
    ("groq", "llama-3.3-70b-versatile") := Rates(59, 79),
    ("deepseek", "deepseek-chat") := Rates(27, 110),
    ("mistral", "mistral-large-latest") := Rates(200, 600),
    ("cohere", "command-r") := Rates(15, 60),
    ("cohere", "command-r-plus") := Rates(250, 1000),
    ("xai", "grok-3-fast") := Rates(500, 2500),
    ("ollama", "llama3.2") := Rates(0, 0),
    ("ollama", "llama3.2:1b") := Rates(0, 0),
    ("ollama", "llama3.1") := Rates(0, 0),
    ("ollama", "llama3.1:70b") := Rates(0, 0),
    ("ollama", "mistral") := Rates(0, 0),
    ("ollama", "mistral-nemo") := Rates(0, 0),
    ("ollama", "phi4") := Rates(0, 0),
    ("ollama", "gemma3") := Rates(0, 0),
    ("ollama", "qwen3") := Rates(0, 0),
    ("ollama", "deepseek-r1") := Rates(0, 0),
    ("ollama", "codellama") := Rates(0, 0),
    ("ollama", "command-r") := Rates(0, 0)
  ]

  function RatesFor(provider: string, model: string): Rates {
    if (provider, model) in PRICING then PRICING[(provider, model)] else DEFAULT_RATES
  }

  function Dollars(cents: nat): real {
    cents as real / 100.0
  }

  /** `estimate_cost`: dollars, not rounded. */
  function EstimateCost(provider: string, model: string, inputTokens: int, outputTokens: int): real {
    CostAt(RatesFor(provider, model), inputTokens, outputTokens)
  }

  function CostAt(rates: Rates, inputTokens: int, outputTokens: int): real {
    (inputTokens as real * Dollars(rates.input) + outputTokens as real * Dollars(rates.output)) / 1000000.0
  }

  const EIGHT_DECIMALS := 100000000.0

  /** `CostService.estimate`: rounded to eight decimals. */
  function Estimate(provider: string, model: string, inputTokens: int, outputTokens: int): real {
    RoundTo(EstimateCost(provider, model, inputTokens, outputTokens), EIGHT_DECIMALS)
  }

  /** The cost in hundred-millionths of a dollar. */
  function Units(rates: Rates, inputTokens: int, outputTokens: int): int {
    inputTokens * rates.input + outputTokens * rates.output
  }

  lemma CentsTimesTokens(tokens: int, cents: nat)
    ensures tokens as real * Dollars(cents) == (tokens * cents) as real / 100.0
  {
    assert tokens as real * cents as real == (tokens * cents) as real;
  }

  lemma MillionthsOfCents(x: real, y: real, units: real)
    requires x + y == units / 100.0
    ensures (x + y) / 1000000.0 * EIGHT_DECIMALS == units
  {
  }

  lemma CostInUnits(rates: Rates, inputTokens: int, outputTokens: int)
    ensures CostAt(rates, inputTokens, outputTokens) * EIGHT_DECIMALS == Units(rates, inputTokens, outputTokens) as real
  {
    CentsTimesTokens(inputTokens, rates.input);
    CentsTimesTokens(outputTokens, rates.output);
    MillionthsOfCents(inputTokens as real * Dollars(rates.input), outputTokens as real * Dollars(rates.output),
                      Units(rates, inputTokens, outputTokens) as real);
  }

  /** Rounding to eight decimals loses nothing, whatever the token counts. */
  lemma EstimateIsExact(provider: string, model: string, inputTokens: int, outputTokens: int)
    ensures Estimate(provider, model, inputTokens, outputTokens) == EstimateCost(provider, model, inputTokens, outputTokens)
  {
    CostInUnits(RatesFor(provider, model), inputTokens, outputTokens);
    HalfEvenExact(Units(RatesFor(provider, model), inputTokens, outputTokens));
  }

  lemma UnitsAdd(rates: Rates, i: int, o: int, i': int, o': int)
    ensures Units(rates, i, o) + Units(rates, i', o') == Units(rates, i + i', o + o')
  {
  }

  /** So the estimate of a sum is the sum of the estimates. */
  lemma EstimateAdds(provider: string, model: string, i: int, o: int, i': int, o': int)
    ensures Estimate(provider, model, i, o) + Estimate(provider, model, i', o')
         == Estimate(provider, model, i + i', o + o')
  {
    EstimateIsExact(provider, model, i, o);
    EstimateIsExact(provider, model, i', o');
    EstimateIsExact(provider, model, i + i', o + o');
    CostInUnits(RatesFor(provider, model), i, o);
    CostInUnits(RatesFor(provider, model), i', o');
    CostInUnits(RatesFor(provider, model), i + i', o + o');
    UnitsAdd(RatesFor(provider, model), i, o, i', o');
  }

  /**
   The listed prices are of a million tokens, input and output; one dollar and three where
   none is listed.
   */
  lemma MillionTokens(provider: string, model: string)
    ensures
      var listed := (provider, model) in PRICING;
      && EstimateCost(provider, model, 1000000, 0) == (if listed then PRICING[(provider, model)].input as real / 100.0 else 1.0)
      && EstimateCost(provider, model, 0, 1000000) == (if listed then PRICING[(provider, model)].output as real / 100.0 else 3.0)
      && EstimateCost(provider, model, 0, 0) == 0.0
  {
  }
}
