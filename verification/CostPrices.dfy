/**
 * What a row costs and what a stage says of its rows, apart from how they are computed
 * (scripts/cost-report/lib/rates.ts and aggregate.ts).
 */
module CostPrices {
  import opened Options
  import opened CostTotals

  // ----- the price of tokens -----------------------------------------------------------------------------

  /** What a token is paid for as; the cache writes are those kept an hour and those kept five minutes. */
  datatype Kind = Input | Output | HourWrite | FiveMinuteWrite | CacheRead

  /** So many tokens of one kind, and none of any other. */
  function Only(kind: Kind, n: nat): Tokens {
    match kind
    case Input => Tokens(n, 0, 0, 0, 0)
    case Output => Tokens(0, n, 0, 0, 0)
    case HourWrite => Tokens(0, 0, n, 0, 0)
    case FiveMinuteWrite => Tokens(0, 0, n, 0, n)
    case CacheRead => Tokens(0, 0, 0, n, 0)
  }

  /** Dollars for a million tokens of the kind. */
  function RateOf(kind: Kind, rate: ModelRate): real {
    match kind
    case Input => rate.input
    case Output => rate.output
    case HourWrite => if rate.cacheWrite.Some? then rate.cacheWrite.value else 2.0 * rate.input
    case FiveMinuteWrite => 1.25 * rate.input
    case CacheRead => if rate.cacheRead.Some? then rate.cacheRead.value else rate.input / 10.0
  }

  /** How many tokens of the kind there are; no more writes are for five minutes than there are. */
  function Number(kind: Kind, t: Tokens): nat {
    var five := if t.cacheWrite5m < t.cacheWrite then t.cacheWrite5m else t.cacheWrite;
    match kind
    case Input => t.input
    case Output => t.output
    case HourWrite => t.cacheWrite - five
    case FiveMinuteWrite => five
    case CacheRead => t.cacheRead
  }

  /** What so many tokens of the kind cost. */
  function Part(kind: Kind, n: nat, rate: ModelRate): real {
    n as real / 1000000.0 * RateOf(kind, rate)
  }

  lemma Regroup(m: real, x: real, k: real)
    ensures m * x * k == m * (k * x)
  {
  }

  /** The price is the sum over the five kinds. */
  lemma PriceIsSum(t: Tokens, rate: ModelRate)
    ensures PriceTokens(t, rate)
         == Part(Input, Number(Input, t), rate) + Part(Output, Number(Output, t), rate)
            + Part(HourWrite, Number(HourWrite, t), rate) + Part(FiveMinuteWrite, Number(FiveMinuteWrite, t), rate)
            + Part(CacheRead, Number(CacheRead, t), rate)
  {
    Regroup(Number(FiveMinuteWrite, t) as real / 1000000.0, rate.input, 1.25);
    assert rate.input * CACHE_WRITE_1H_FALLBACK_MULTIPLIER == 2.0 * rate.input;
    assert rate.input * CACHE_READ_FALLBACK_MULTIPLIER == rate.input / 10.0;
  }

  lemma NoPart(kind: Kind, rate: ModelRate)
    ensures Part(kind, 0, rate) == 0.0
  {
  }

  lemma OneNumber(kind: Kind, n: nat)
    ensures forall k :: Number(k, Only(kind, n)) == if k == kind then n else 0
  {
  }

  /** So many tokens of one kind alone cost that kind's rate. */
  lemma PriceOfKind(kind: Kind, n: nat, rate: ModelRate)
    ensures PriceTokens(Only(kind, n), rate) == n as real / 1000000.0 * RateOf(kind, rate)
  {
    OnePart(kind, n, rate);
  }

  lemma OnePart(kind: Kind, n: nat, rate: ModelRate)
    ensures PriceTokens(Only(kind, n), rate) == Part(kind, n, rate)
  {
    OneNumber(kind, n);
    PriceIsSum(Only(kind, n), rate);
    NoPart(Input, rate);
    NoPart(Output, rate);
    NoPart(HourWrite, rate);
    NoPart(FiveMinuteWrite, rate);
    NoPart(CacheRead, rate);
  }

  /** No more cache writes are for five minutes than there are cache writes. */
  predicate IsCounted(t: Tokens) {
    t.cacheWrite5m <= t.cacheWrite
  }

  function Added(a: Tokens, b: Tokens): Tokens {
    Tokens(a.input + b.input, a.output + b.output, a.cacheWrite + b.cacheWrite, a.cacheRead + b.cacheRead,
           a.cacheWrite5m + b.cacheWrite5m)
  }

  lemma PartsAdd(kind: Kind, m: nat, n: nat, rate: ModelRate)
    ensures Part(kind, m + n, rate) == Part(kind, m, rate) + Part(kind, n, rate)
  {
    var p, q, x := m as real / 1000000.0, n as real / 1000000.0, RateOf(kind, rate);
    assert (m + n) as real / 1000000.0 == p + q;
    assert (p + q) * x == p * x + q * x;
  }

  /** Prices add: what two calls use together costs what they cost apart. */
  lemma PricesAdd(a: Tokens, b: Tokens, rate: ModelRate)
    requires IsCounted(a) && IsCounted(b)
    ensures PriceTokens(Added(a, b), rate) == PriceTokens(a, rate) + PriceTokens(b, rate)
  {
    PriceIsSum(a, rate);
    PriceIsSum(b, rate);
    PriceIsSum(Added(a, b), rate);
    PartsAdd(Input, a.input, b.input, rate);
    PartsAdd(Output, a.output, b.output, rate);
    PartsAdd(HourWrite, a.cacheWrite - a.cacheWrite5m, b.cacheWrite - b.cacheWrite5m, rate);
    PartsAdd(FiveMinuteWrite, a.cacheWrite5m, b.cacheWrite5m, rate);
    PartsAdd(CacheRead, a.cacheRead, b.cacheRead, rate);
  }

  /** Five-minute writes beyond the cache writes are not counted. */
  lemma SurplusIsFree(t: Tokens, rate: ModelRate)
    requires !IsCounted(t)
    ensures PriceTokens(t, rate) == PriceTokens(t.(cacheWrite5m := t.cacheWrite), rate)
  {
  }

  // ----- which price a row has ---------------------------------------------------------------------------

  /** The service recorded what the call cost: it says so, or says nothing and the cost is positive. */
  predicate WasPriced(c: Call) {
    && c.costUsd.Some?
    && (c.costStatus == Some("priced") || (c.costStatus == None && c.costUsd.value > 0.0))
  }

  predicate HasTokens(t: Tokens) {
    t.input > 0 || t.output > 0 || t.cacheWrite > 0 || t.cacheRead > 0
  }

  /**
   * A row's cost is the recorded one, when there is one; else today's price of its tokens, when its model
   * has a rate; else nothing, and it is unpriced when it used tokens.
   */
  lemma CostMeaning(c: Call, rates: RateTable)
    ensures var cost, rate := CostForRow(c, rates), RateFor(rates, c.aiModel);
      && (cost.source == Recorded <==> WasPriced(c))
      && (cost.source == Unpriced <==> !WasPriced(c) && rate == None && HasTokens(c.tokens))
      && (cost.source == Computed <==> !WasPriced(c) && (rate.Some? || !HasTokens(c.tokens)))
      && cost.usd == (if WasPriced(c) then c.costUsd.value
                      else if rate.Some? then PriceTokens(c.tokens, rate.value) else 0.0)
  {
  }

  predicate IsSlugChar(c: char) {
    'a' <= c <= 'z' || '0' <= c <= '9' || c == '.' || c == '_' || c == '-'
  }

  predicate IsUpper(c: char) {
    'A' <= c <= 'Z'
  }

  /** A rate is found by the model's name in lower case, with a dash for any other character. */
  lemma SlugMeaning(model: string)
    ensures |ModelSlug(model)| == |model|
    ensures forall i :: 0 <= i < |model| ==>
              ModelSlug(model)[i] == (if IsSlugChar(model[i]) then model[i]
                                      else if IsUpper(model[i]) then model[i] - 'A' + 'a' else '-')
    ensures ModelSlug(ModelSlug(model)) == ModelSlug(model)
  {
  }

  lemma RateMeaning(rates: RateTable, model: Option<string>)
    ensures RateFor(rates, model).Some? <==> model.Some? && model.value != "" && ModelSlug(model.value) in rates
    ensures RateFor(rates, model).Some? ==> RateFor(rates, model).value == rates[ModelSlug(model.value)]
  {
  }

  // ----- what a stage says of its rows -------------------------------------------------------------------

  function Total(rows: seq<Row>, f: Row -> nat): nat {
    if rows == [] then 0 else Total(rows[..|rows| - 1], f) + f(rows[|rows| - 1])
  }

  function TotalUsd(rows: seq<Row>, rates: RateTable): real {
    if rows == [] then 0.0
    else TotalUsd(rows[..|rows| - 1], rates) + CostForRow(rows[|rows| - 1].call, rates).usd
  }

  /** The number of rows that satisfy `p`. */
  function Count(rows: seq<Row>, p: Row -> bool): nat {
    Total(rows, (r: Row) => if p(r) then 1 else 0)
  }

  predicate IsUnpriced(r: Row, rates: RateTable) {
    CostForRow(r.call, rates).source == Unpriced
  }

  predicate NamesModel(r: Row, m: string) {
    r.call.aiModel == Some(m) && m != ""
  }

  lemma {:induction false} SumFields(rows: seq<Row>, rates: RateTable)
    ensures var s := SumOf(rows, rates);
      && s.calls == |rows| && s.failedCalls == Count(rows, (r: Row) => r.call.status == Some("failed"))
      && s.inputTokens == Total(rows, (r: Row) => r.call.tokens.input)
      && s.outputTokens == Total(rows, (r: Row) => r.call.tokens.output)
      && s.cacheWriteTokens == Total(rows, (r: Row) => r.call.tokens.cacheWrite)
      && s.cacheReadTokens == Total(rows, (r: Row) => r.call.tokens.cacheRead)
      && s.costUsd == TotalUsd(rows, rates)
      && s.unpricedCalls == Count(rows, (r: Row) => IsUnpriced(r, rates))
  {
    if rows != [] {
      SumFields(rows[..|rows| - 1], rates);
    }
  }

  predicate HasModel(rows: seq<Row>, m: string) {
    exists r :: r in rows && NamesModel(r, m)
  }

  lemma HasModelNext(rows: seq<Row>, r: Row, m: string)
    ensures HasModel(rows + [r], m) <==> HasModel(rows, m) || NamesModel(r, m)
  {
    assert r in rows + [r];
    if HasModel(rows, m) {
      var x :| x in rows && NamesModel(x, m);
      assert x in rows + [r];
    }
  }

  lemma {:induction false} SumModels(rows: seq<Row>, rates: RateTable, m: string)
    ensures m in SumOf(rows, rates).models <==> HasModel(rows, m)
  {
    if rows != [] {
      var n := |rows| - 1;
      SumModels(rows[..n], rates, m);
      HasModelNext(rows[..n], rows[n], m);
      assert rows == rows[..n] + [rows[n]];
    }
  }

  /** Each number of a reported stage, said of its rows. */
  lemma StageMeaning(s: Stage, rows: seq<Row>, rates: RateTable, usdInr: real)
    requires Content(s) == SumOf(rows, rates) && Sound(s, usdInr)
    ensures s.calls == |rows| && s.failedCalls == Count(rows, (r: Row) => r.call.status == Some("failed"))
    ensures s.inputTokens == Total(rows, (r: Row) => r.call.tokens.input)
    ensures s.outputTokens == Total(rows, (r: Row) => r.call.tokens.output)
    ensures s.cacheWriteTokens == Total(rows, (r: Row) => r.call.tokens.cacheWrite)
    ensures s.cacheReadTokens == Total(rows, (r: Row) => r.call.tokens.cacheRead)
    ensures s.costUsd == TotalUsd(rows, rates) && s.costInr == s.costUsd * usdInr
    ensures s.unpricedCalls == Count(rows, (r: Row) => IsUnpriced(r, rates))
    ensures forall m :: m in s.models <==> HasModel(rows, m)
    ensures forall i, j :: 0 <= i < j < |s.models| ==> s.models[i] != s.models[j]
  {
    SumFields(rows, rates);
    forall m ensures m in s.models <==> HasModel(rows, m) {
      SumModels(rows, rates, m);
      assert m in NamedModels(s.models) <==> m in s.models;
    }
  }
}
