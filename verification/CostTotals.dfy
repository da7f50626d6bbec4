/**
 * The arithmetic of the cost report: what one row costs (scripts/cost-report/lib/rates.ts) and how
 * rows and stages are added up (scripts/cost-report/lib/aggregate.ts). Money is `real`.
 *
 * `Sum` is what a stage says whatever order its rows came in. The mutable `StageTotals` is proved
 * against it, and the lemmas show that `Sum` forms a commutative monoid, so every total of the
 * report depends on its rows only as a multiset.
 */
module CostTotals {
  import opened Options
  import opened Prefixes

  datatype Tokens = Tokens(input: nat, output: nat, cacheWrite: nat, cacheRead: nat, cacheWrite5m: nat)

  /** What pricing reads of a Generation or LlmAuxCall row. */
  datatype Call = Call(
    tokens: Tokens, costUsd: Option<real>, costStatus: Option<string>,
    aiModel: Option<string>, status: Option<string>)

  /** One row of either collection; the two kinds share the fields that both have. */
  datatype Row =
    | Generation(id: string, userId: Option<string>, intakeId: Option<string>, createdAt: Option<int>, call: Call,
                 documentId: Option<string>, runId: Option<string>, runType: Option<string>)
    | Aux(id: string, userId: Option<string>, intakeId: Option<string>, createdAt: Option<int>, call: Call,
          purpose: Option<string>)

  datatype ModelRate = ModelRate(input: real, output: real, cacheWrite: Option<real>, cacheRead: Option<real>)

  /** Rates keyed by model slug. */
  type RateTable = map<string, ModelRate>

  datatype CostSource = Recorded | Computed | Mixed | Unpriced | Nothing

  datatype RowCost = RowCost(source: CostSource, usd: real)

  const CACHE_WRITE_1H_FALLBACK_MULTIPLIER := 2.0
  const CACHE_READ_FALLBACK_MULTIPLIER := 0.1
  const CACHE_WRITE_5M_MULTIPLIER := 1.25

  function Inr(usd: real, usdInr: real): real {
    usd * usdInr
  }

  /** A string the source treats as present: neither null nor empty. */
  predicate Given(s: Option<string>) {
    s.Some? && s.value != ""
  }

  // ----- the price of one row -----------------------------------------------------------------

  function SlugChar(c: char): char {
    if 'A' <= c <= 'Z' then c - 'A' + 'a'
    else if 'a' <= c <= 'z' || '0' <= c <= '9' || c == '.' || c == '_' || c == '-' then c
    else '-'
  }

  function ModelSlug(model: string): string {
    seq(|model|, i requires 0 <= i < |model| => SlugChar(model[i]))
  }

  function RateFor(rates: RateTable, model: Option<string>): Option<ModelRate> {
    if Given(model) && ModelSlug(model.value) in rates then Some(rates[ModelSlug(model.value)]) else None
  }

  function PriceTokens(t: Tokens, rate: ModelRate): real {
    var cacheWriteRate := if rate.cacheWrite.Some? then rate.cacheWrite.value
                          else rate.input * CACHE_WRITE_1H_FALLBACK_MULTIPLIER;
    var cacheReadRate := if rate.cacheRead.Some? then rate.cacheRead.value
                         else rate.input * CACHE_READ_FALLBACK_MULTIPLIER;
    var fiveMin := if t.cacheWrite5m < t.cacheWrite then t.cacheWrite5m else t.cacheWrite;
    var atWriteRate := t.cacheWrite - fiveMin;
    t.input as real / 1000000.0 * rate.input
    + t.output as real / 1000000.0 * rate.output
    + atWriteRate as real / 1000000.0 * cacheWriteRate
    + fiveMin as real / 1000000.0 * rate.input * CACHE_WRITE_5M_MULTIPLIER
    + t.cacheRead as real / 1000000.0 * cacheReadRate
  }

  /** The recorded cost when the row was priced, else today's rate, else nothing. */
  function CostForRow(c: Call, rates: RateTable): RowCost {
    if c.costUsd.Some? && c.costStatus == Some("priced") then RowCost(Recorded, c.costUsd.value)
    else if c.costUsd.Some? && c.costStatus.None? && c.costUsd.value > 0.0 then RowCost(Recorded, c.costUsd.value)
    else
      var rate := RateFor(rates, c.aiModel);
      if rate.Some? then RowCost(Computed, PriceTokens(c.tokens, rate.value))
      else if c.tokens.input + c.tokens.output + c.tokens.cacheWrite + c.tokens.cacheRead == 0
      then RowCost(Computed, 0.0)
      else RowCost(Unpriced, 0.0)
  }

  function CombineSource(a: CostSource, b: CostSource): CostSource {
    if a.Nothing? then b
    else if b.Nothing? then a
    else if a.Unpriced? || b.Unpriced? then Unpriced
    else if a == b then a
    else Mixed
  }

  // ----- order-free sums ------------------------------------------------------------------------

  datatype Sum = Sum(
    calls: nat, failedCalls: nat, inputTokens: nat, outputTokens: nat, cacheWriteTokens: nat, cacheReadTokens: nat,
    costUsd: real, costSource: CostSource, unpricedCalls: nat, models: set<string>)

  const ZERO := Sum(0, 0, 0, 0, 0, 0, 0.0, Nothing, 0, {})

  function Plus(a: Sum, b: Sum): Sum {
    Sum(a.calls + b.calls, a.failedCalls + b.failedCalls, a.inputTokens + b.inputTokens,
        a.outputTokens + b.outputTokens, a.cacheWriteTokens + b.cacheWriteTokens,
        a.cacheReadTokens + b.cacheReadTokens, a.costUsd + b.costUsd,
        CombineSource(a.costSource, b.costSource), a.unpricedCalls + b.unpricedCalls, a.models + b.models)
  }

  /** What a call of a given cost contributes. */
  function SumOfCall(c: Call, cost: RowCost): Sum {
    Sum(1, FailedCount(c), c.tokens.input, c.tokens.output, c.tokens.cacheWrite, c.tokens.cacheRead,
        cost.usd, cost.source, UnpricedCount(cost), ModelSet(c.aiModel))
  }

  function FailedCount(c: Call): nat {
    if c.status == Some("failed") then 1 else 0
  }

  function UnpricedCount(cost: RowCost): nat {
    if cost.source.Unpriced? then 1 else 0
  }

  /** What one row contributes. */
  function SumOfRow(r: Row, rates: RateTable): Sum {
    SumOfCall(r.call, CostForRow(r.call, rates))
  }

  /** What a list of rows adds up to. */
  function SumOf(rows: seq<Row>, rates: RateTable): Sum {
    if rows == [] then ZERO
    else Plus(SumOf(rows[..|rows| - 1], rates), SumOfRow(rows[|rows| - 1], rates))
  }

  /** The sources form a join semilattice, so totals combine in any order and grouping. */
  lemma PlusIsCommutativeMonoid(a: Sum, b: Sum, c: Sum)
    ensures Plus(a, ZERO) == a && Plus(ZERO, a) == a
    ensures Plus(a, b) == Plus(b, a)
    ensures Plus(Plus(a, b), c) == Plus(a, Plus(b, c))
    ensures CombineSource(a.costSource, a.costSource) == a.costSource
  {
    assert a.models + b.models == b.models + a.models;
    assert (a.models + b.models) + c.models == a.models + (b.models + c.models);
  }

  lemma {:induction false} SumOfConcat(a: seq<Row>, b: seq<Row>, rates: RateTable)
    ensures SumOf(a + b, rates) == Plus(SumOf(a, rates), SumOf(b, rates))
    decreases |b|
  {
    if b == [] {
      assert a + b == a;
      PlusIsCommutativeMonoid(SumOf(a, rates), ZERO, ZERO);
    } else {
      var n := |b| - 1;
      assert (a + b)[..|a + b| - 1] == a + b[..n];
      SumOfConcat(a, b[..n], rates);
      PlusIsCommutativeMonoid(SumOf(a, rates), SumOf(b[..n], rates), SumOfRow(b[n], rates));
    }
  }

  lemma SumOfPullOut(b: seq<Row>, i: nat, rates: RateTable)
    requires i < |b|
    ensures SumOf(b, rates) == Plus(SumOf(b[..i] + b[i + 1..], rates), SumOfRow(b[i], rates))
  {
    var p, q, s := SumOf(b[..i], rates), SumOf(b[i + 1..], rates), SumOfRow(b[i], rates);
    assert b == (b[..i] + [b[i]]) + b[i + 1..];
    SumOfConcat(b[..i] + [b[i]], b[i + 1..], rates);
    assert (b[..i] + [b[i]])[..i] == b[..i];
    SumOfConcat(b[..i], b[i + 1..], rates);
    PlusIsCommutativeMonoid(p, s, q);
    PlusIsCommutativeMonoid(s, q, p);
    PlusIsCommutativeMonoid(p, q, s);
  }

  lemma MultisetPullOut<T>(b: seq<T>, i: nat)
    requires i < |b|
    ensures multiset(b[..i] + b[i + 1..]) == multiset(b) - multiset{b[i]}
  {
    assert b == b[..i] + ([b[i]] + b[i + 1..]);
  }

  /** Two lists with the same rows, in any order, add up to the same. */
  lemma {:induction false} SumOfPermutation(a: seq<Row>, b: seq<Row>, rates: RateTable)
    requires multiset(a) == multiset(b)
    ensures SumOf(a, rates) == SumOf(b, rates)
    decreases |a|
  {
    if a == [] {
      assert |multiset(b)| == 0;
    } else {
      var n := |a| - 1;
      assert a[n] in multiset(a) && a[n] in multiset(b);
      var i :| 0 <= i < |b| && b[i] == a[n];
      MultisetPullOut(a, n);
      MultisetPullOut(b, i);
      assert a[..n] + a[n + 1..] == a[..n];
      SumOfPermutation(a[..n], b[..i] + b[i + 1..], rates);
      SumOfPullOut(b, i, rates);
    }
  }

  /** The source of every row, combined in order. */
  function Combined(sources: seq<CostSource>): CostSource {
    if sources == [] then Nothing
    else CombineSource(Combined(sources[..|sources| - 1]), sources[|sources| - 1])
  }

  function SourcesOf(rows: seq<Row>, rates: RateTable): seq<CostSource> {
    seq(|rows|, i requires 0 <= i < |rows| => CostForRow(rows[i].call, rates).source)
  }

  lemma {:induction false} SumOfSource(rows: seq<Row>, rates: RateTable)
    ensures SumOf(rows, rates).costSource == Combined(SourcesOf(rows, rates))
    ensures SumOf(rows, rates).unpricedCalls == 0 <==> Unpriced !in SourcesOf(rows, rates)
  {
    if rows != [] {
      var n := |rows| - 1;
      var s := SourcesOf(rows, rates);
      assert s[..n] == SourcesOf(rows[..n], rates) && s == s[..n] + [s[n]];
      SumOfSource(rows[..n], rates);
    }
  }

  /** A combined source says of its parts exactly what the report's documentation says. */
  lemma {:induction false} CombinedMeaning(sources: seq<CostSource>)
    requires forall s :: s in sources ==> s in {Recorded, Computed, Unpriced}
    ensures Combined(sources) == (
      if sources == [] then Nothing
      else if Unpriced in sources then Unpriced
      else if Computed !in sources then Recorded
      else if Recorded !in sources then Computed
      else Mixed)
  {
    if sources != [] {
      var n := |sources| - 1;
      assert sources == sources[..n] + [sources[n]];
      assert forall s :: s in sources <==> s in sources[..n] || s == sources[n];
      assert n == 0 ==> sources[..n] == [];
      CombinedMeaning(sources[..n]);
      assert sources[n] in sources;
      assert n > 0 ==> sources[..n][0] in sources[..n];
    }
  }

  // ----- the mutable totals of one stage -----------------------------------------------------------

  /** A stage's totals as reported. */
  datatype Stage = Stage(
    calls: nat, failedCalls: nat, inputTokens: nat, outputTokens: nat, cacheWriteTokens: nat, cacheReadTokens: nat,
    costUsd: real, costInr: real, costSource: CostSource, unpricedCalls: nat, models: seq<string>)

  /** A reported stage without its rupees and without the order of its models. */
  function Content(s: Stage): Sum {
    Sum(s.calls, s.failedCalls, s.inputTokens, s.outputTokens, s.cacheWriteTokens, s.cacheReadTokens,
        s.costUsd, s.costSource, s.unpricedCalls, NamedModels(s.models))
  }

  /** Where the money of a reported stage comes from, said of its rows. */
  lemma StageSourceMeaning(s: Stage, rows: seq<Row>, rates: RateTable)
    requires Content(s) == SumOf(rows, rates)
    ensures var sources := SourcesOf(rows, rates);
      && s.costSource == (
           if rows == [] then Nothing
           else if Unpriced in sources then Unpriced
           else if Computed !in sources then Recorded
           else if Recorded !in sources then Computed
           else Mixed)
      && (s.unpricedCalls > 0 <==> s.costSource == Unpriced)
  {
    SumOfSource(rows, rates);
    CombinedMeaning(SourcesOf(rows, rates));
  }

  function NamedModels(models: seq<string>): set<string> {
    set m | m in models && m != ""
  }

  function ModelSet(m: Option<string>): set<string> {
    if Given(m) then {m.value} else {}
  }

  /** Names of models, each once. */
  predicate IsModelList(models: seq<string>) {
    "" !in models && forall i, j :: 0 <= i < j < |models| ==> models[i] != models[j]
  }

  /** Rupees follow dollars and no model is listed twice. */
  predicate Sound(s: Stage, usdInr: real) {
    s.costInr == Inr(s.costUsd, usdInr) && IsModelList(s.models)
  }

  /** StageTotals of the source: a record that `addRow` and `mergeStage` update in place. */
  class StageTotals {
    var calls: nat
    var failedCalls: nat
    var inputTokens: nat
    var outputTokens: nat
    var cacheWriteTokens: nat
    var cacheReadTokens: nat
    var costUsd: real
    var costInr: real
    var costSource: CostSource
    var unpricedCalls: nat
    var models: seq<string>

    function View(): Stage
      reads this
    {
      Stage(calls, failedCalls, inputTokens, outputTokens, cacheWriteTokens, cacheReadTokens,
            costUsd, costInr, costSource, unpricedCalls, models)
    }

    constructor ()
      ensures Content(View()) == ZERO
      ensures forall usdInr :: Sound(View(), usdInr)
    {
      calls, failedCalls, inputTokens, outputTokens, cacheWriteTokens, cacheReadTokens := 0, 0, 0, 0, 0, 0;
      costUsd, costInr, costSource, unpricedCalls, models := 0.0, 0.0, Nothing, 0, [];
    }

    method AddModel(m: Option<string>)
      requires IsModelList(models)
      modifies this`models
      ensures IsModelList(models) && old(models) <= models
      ensures NamedModels(models) == NamedModels(old(models)) + ModelSet(m)
    {
      if Given(m) && m.value !in models {
        models := models + [m.value];
      }
    }

    /** addRow: the stage grows by exactly what the row contributes; the answer names the model of an unpriced row. */
    method AddRow(r: Row, rates: RateTable, usdInr: real) returns (unpriced: Option<string>)
      requires IsModelList(models)
      modifies this
      ensures Content(View()) == Plus(old(Content(View())), SumOfRow(r, rates))
      ensures Sound(View(), usdInr) && old(models) <= models
      ensures unpriced.Some? <==> unpricedCalls > old(unpricedCalls)
      ensures unpriced.Some? ==>
                unpriced == Some(if r.call.aiModel.Some? then r.call.aiModel.value else "(no model on row)")
    {
      var cost := CostForRow(r.call, rates);
      AddCall(r.call, cost, usdInr);
      unpriced := if UnpricedCount(cost) == 0 then None
                  else Some(if r.call.aiModel.Some? then r.call.aiModel.value else "(no model on row)");
    }

    method AddCall(c: Call, cost: RowCost, usdInr: real)
      requires IsModelList(models)
      modifies this
      ensures Content(View()) == Plus(old(Content(View())), SumOfCall(c, cost))
      ensures unpricedCalls == old(unpricedCalls) + UnpricedCount(cost)
      ensures Sound(View(), usdInr) && old(models) <= models
    {
      calls := calls + 1;
      failedCalls := failedCalls + FailedCount(c);
      inputTokens := inputTokens + c.tokens.input;
      outputTokens := outputTokens + c.tokens.output;
      cacheWriteTokens := cacheWriteTokens + c.tokens.cacheWrite;
      cacheReadTokens := cacheReadTokens + c.tokens.cacheRead;
      costUsd := costUsd + cost.usd;
      costInr := Inr(costUsd, usdInr);
      costSource := CombineSource(costSource, cost.source);
      unpricedCalls := unpricedCalls + UnpricedCount(cost);
      AddModel(c.aiModel);
    }

    /** mergeStage: the stage grows by exactly what the other stage holds. */
    method Merge(other: Stage, usdInr: real)
      requires IsModelList(models)
      modifies this
      ensures Content(View()) == Plus(old(Content(View())), Content(other))
      ensures Sound(View(), usdInr) && old(models) <= models
    {
      calls := calls + other.calls;
      failedCalls := failedCalls + other.failedCalls;
      inputTokens := inputTokens + other.inputTokens;
      outputTokens := outputTokens + other.outputTokens;
      cacheWriteTokens := cacheWriteTokens + other.cacheWriteTokens;
      cacheReadTokens := cacheReadTokens + other.cacheReadTokens;
      costUsd := costUsd + other.costUsd;
      costInr := Inr(costUsd, usdInr);
      costSource := CombineSource(costSource, other.costSource);
      unpricedCalls := unpricedCalls + other.unpricedCalls;
      MergeModels(other.models);
    }

    method MergeModels(others: seq<string>)
      requires IsModelList(models)
      modifies this`models
      ensures IsModelList(models) && old(models) <= models
      ensures NamedModels(models) == NamedModels(old(models)) + NamedModels(others)
    {
      for i := 0 to |others|
        invariant IsModelList(models) && old(models) <= models
        invariant NamedModels(models) == NamedModels(old(models)) + NamedModels(others[..i])
      {
        assert NamedModels(others[..i + 1]) == NamedModels(others[..i]) + ModelSet(Some(others[i]));
        AddModel(Some(others[i]));
      }
      PrefixAll(others);
    }
  }

  /** Adds every row of a list to a fresh stage. */
  method StageOf(rows: seq<Row>, rates: RateTable, usdInr: real) returns (s: Stage)
    ensures Content(s) == SumOf(rows, rates) && Sound(s, usdInr)
  {
    var totals := new StageTotals();
    for i := 0 to |rows|
      invariant Content(totals.View()) == SumOf(rows[..i], rates)
      invariant Sound(totals.View(), usdInr)
    {
      PrefixStep(rows, i);
      var _ := totals.AddRow(rows[i], rates, usdInr);
    }
    PrefixAll(rows);
    s := totals.View();
  }
}
