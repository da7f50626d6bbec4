/**
 * The spend of an A/B run (the loop over matters and arms of main, runArm and costOf in
 * scripts/ab/run-ab.ts). A call carries its raw cost at the rates; money is exact.
 */
module AbSpend {
  import opened Prefixes

  const USD_INR: real := 88.0
  const BUDGET_INR: real := 600.0

  datatype Call = Call(body: bool, usd: real, tokens: nat)

  /** An arm's calls, and whether its checks found a problem. */
  datatype Arm = Arm(calls: seq<Call>, problems: bool)

  /** One matter: its intake, whether that failed, and both arms in the order they run. */
  datatype Matter = Matter(intake: seq<Call>, failed: bool, first: Arm, second: Arm)

  /** costOf(calls).raw */
  function CostOf(calls: seq<Call>): real {
    if calls == [] then 0.0 else CostOf(calls[..|calls| - 1]) + calls[|calls| - 1].usd
  }

  function TokensOf(calls: seq<Call>): nat {
    if calls == [] then 0 else TokensOf(calls[..|calls| - 1]) + calls[|calls| - 1].tokens
  }

  /** The calls of the stage `body`, or the others. */
  function OfStage(calls: seq<Call>, body: bool): seq<Call> {
    if calls == [] then []
    else OfStage(calls[..|calls| - 1], body) + (if calls[|calls| - 1].body == body then [calls[|calls| - 1]] else [])
  }

  lemma {:induction false} CostOfConcat(a: seq<Call>, b: seq<Call>)
    ensures CostOf(a + b) == CostOf(a) + CostOf(b)
  {
    if b == [] {
      assert a + b == a;
    } else {
      var n := |b| - 1;
      assert (a + b)[..|a + b| - 1] == a + b[..n];
      CostOfConcat(a, b[..n]);
    }
  }

  /** Each call is a body call or another: the two costs add up to the arm's. */
  lemma {:induction false} StagesAddUp(calls: seq<Call>)
    ensures CostOf(OfStage(calls, true)) + CostOf(OfStage(calls, false)) == CostOf(calls)
  {
    if calls != [] {
      var init, last := calls[..|calls| - 1], calls[|calls| - 1];
      StagesAddUp(init);
      CostOfConcat(OfStage(init, last.body), [last]);
      CostOfOne(last);
      assert OfStage(calls, !last.body) == OfStage(init, !last.body);
    }
  }

  lemma CostOfOne(c: Call)
    ensures CostOf([c]) == c.usd
  {
    assert [c][..0] == [];
  }

  /** The calls a matter makes: a failed intake runs no arm, a problem in the first arm stops the run. */
  function CallsOf(m: Matter): seq<Call> {
    if m.failed then m.intake
    else if m.first.problems then m.intake + m.first.calls
    else m.intake + m.first.calls + m.second.calls
  }

  lemma LogGrows(log: seq<Call>, a: seq<Call>, b: seq<Call>, c: seq<Call>)
    ensures (log + a) + b == log + (a + b) && ((log + a) + b) + c == log + (a + b + c)
  {
  }

  predicate FailsArm(m: Matter) {
    !m.failed && (m.first.problems || m.second.problems)
  }

  function AllCalls(ms: seq<Matter>): seq<Call> {
    if ms == [] then [] else AllCalls(ms[..|ms| - 1]) + CallsOf(ms[|ms| - 1])
  }

  lemma AllCallsStep(ms: seq<Matter>, k: nat)
    requires k < |ms|
    ensures AllCalls(ms[..k + 1]) == AllCalls(ms[..k]) + CallsOf(ms[k])
    ensures UsedOn(ms[..k + 1]) == UsedOn(ms[..k]) + UsedBy(ms[k])
  {
    PrefixStep(ms, k);
  }

  /** The worst case of the next matter still fits under the cap. */
  predicate Fits(spentUsd: real, worstUsd: real) {
    (spentUsd + worstUsd) * USD_INR <= BUDGET_INR
  }

  function SpentOn(ms: seq<Matter>, k: nat): real
    requires k <= |ms|
  {
    CostOf(AllCalls(ms[..k]))
  }

  /** What counts towards the token cap: intake, and the arms' body calls. */
  function UsedBy(m: Matter): nat {
    TokensOf(m.intake)
    + (if m.failed then 0
       else TokensOf(OfStage(m.first.calls, true))
            + (if m.first.problems then 0 else TokensOf(OfStage(m.second.calls, true))))
  }

  function UsedOn(ms: seq<Matter>): nat {
    if ms == [] then 0 else UsedOn(ms[..|ms| - 1]) + UsedBy(ms[|ms| - 1])
  }

  /** Matter k is started: nothing stopped the run after the matters before it, and both caps leave room. */
  predicate Starts(ms: seq<Matter>, k: nat, limits: Limits)
    requires k < |ms|
  {
    && (k == 0 || (!FailsArm(ms[k - 1]) && SpentOn(ms, k) * USD_INR <= BUDGET_INR))
    && UsedOn(ms[..k]) < limits.maxTokens
    && (!limits.dry ==> Fits(SpentOn(ms, k), limits.worstUsd))
  }

  /** Each of the first n matters is. */
  predicate StartedTo(ms: seq<Matter>, n: nat, limits: Limits)
    requires n <= |ms|
  {
    forall k :: 0 <= k < n ==> Starts(ms, k, limits)
  }

  datatype Limits = Limits(dry: bool, maxTokens: nat, worstUsd: real)

  /** The run's log of calls and its running totals. */
  class AbRun {
    var log: seq<Call>
    var spentUsd: real
    var used: nat
    var armFailure: bool

    predicate Sums()
      reads this
    {
      spentUsd == CostOf(log)
    }

    constructor ()
      ensures log == [] && Sums() && !armFailure && used == 0
    {
      log, spentUsd, used, armFailure := [], 0.0, 0, false;
    }

    /** What the loop does after an arm: its body cost and what other calls cost it. */
    method TakeArm(arm: Arm)
      requires Sums()
      modifies this
      ensures Sums() && log == old(log) + arm.calls && armFailure == arm.problems
      ensures used == old(used) + TokensOf(OfStage(arm.calls, true))
    {
      log := log + arm.calls;
      used := used + TokensOf(OfStage(arm.calls, true));
      var armUsd := CostOf(OfStage(arm.calls, true)) + CostOf(OfStage(arm.calls, false));
      spentUsd := spentUsd + armUsd;
      armFailure := arm.problems;
      StagesAddUp(arm.calls);
      CostOfConcat(old(log), arm.calls);
    }

    method RunMatter(m: Matter)
      requires Sums()
      modifies this
      ensures Sums() && log == old(log) + CallsOf(m) && armFailure == FailsArm(m) && used == old(used) + UsedBy(m)
    {
      log := log + m.intake;
      used := used + TokensOf(m.intake);
      spentUsd := spentUsd + CostOf(m.intake);
      CostOfConcat(old(log), m.intake);
      armFailure := false;
      if !m.failed {
        TakeArm(m.first);
        if !armFailure {
          TakeArm(m.second);
        }
      }
      LogGrows(old(log), m.intake, m.first.calls, m.second.calls);
    }

    /** The log and the totals are those of the first k matters. */
    predicate RanTo(ms: seq<Matter>, k: nat)
      requires k <= |ms|
      reads this
    {
      && Sums() && log == AllCalls(ms[..k]) && used == UsedOn(ms[..k])
      && armFailure == (k > 0 && FailsArm(ms[k - 1]))
    }

    method RunNext(ms: seq<Matter>, k: nat)
      requires k < |ms| && RanTo(ms, k)
      modifies this
      ensures RanTo(ms, k + 1)
    {
      AllCallsStep(ms, k);
      RunMatter(ms[k]);
    }

    /** The checks after a matter and before the next. */
    method MayStart(ms: seq<Matter>, k: nat, limits: Limits) returns (go: bool)
      requires k <= |ms| && RanTo(ms, k)
      ensures go <==> k < |ms| && Starts(ms, k, limits)
    {
      var stopped := k > 0 && (armFailure || spentUsd * USD_INR > BUDGET_INR);
      go := k < |ms| && !stopped && used < limits.maxTokens && (limits.dry || Fits(spentUsd, limits.worstUsd));
    }

    /**
     * The loop over the matters: `done` of them were run, each because nothing stopped it, and the
     * next one was not, because something did. The total is the cost of every call logged.
     */
    method RunAll(ms: seq<Matter>, limits: Limits) returns (done: nat)
      requires log == [] && Sums() && !armFailure && used == 0
      modifies this
      ensures done <= |ms| && RanTo(ms, done)
      ensures StartedTo(ms, done, limits)
      ensures done < |ms| ==> !Starts(ms, done, limits)
    {
      done := 0;
      var go := MayStart(ms, done, limits);
      while go
        invariant done <= |ms| && RanTo(ms, done)
        invariant go <==> done < |ms| && Starts(ms, done, limits)
        invariant StartedTo(ms, done, limits)
        decreases |ms| - done
      {
        go := RunOne(ms, done, limits);
        done := done + 1;
      }
    }

    /** One matter, and the checks after it. */
    method RunOne(ms: seq<Matter>, k: nat, limits: Limits) returns (go: bool)
      requires k < |ms| && RanTo(ms, k) && StartedTo(ms, k, limits) && Starts(ms, k, limits)
      modifies this
      ensures RanTo(ms, k + 1) && StartedTo(ms, k + 1, limits)
      ensures go <==> k + 1 < |ms| && Starts(ms, k + 1, limits)
    {
      RunNext(ms, k);
      go := MayStart(ms, k + 1, limits);
    }
  }

  /**
   * What RunAll leaves, in real mode: with the matters' worst case honest, the spend is within the
   * cap; else it passes the cap by at most what the last matter cost beyond its worst case.
   */
  lemma SpendIsBounded(ms: seq<Matter>, done: nat, limits: Limits)
    requires 0 < done <= |ms| && Starts(ms, done - 1, limits) && !limits.dry
    ensures var spent, last := SpentOn(ms, done), CostOf(CallsOf(ms[done - 1]));
      && spent * 88.0 <= 600.0 + (last - limits.worstUsd) * 88.0
      && (last <= limits.worstUsd ==> spent * 88.0 <= 600.0)
  {
    AllCallsStep(ms, done - 1);
    CostOfConcat(AllCalls(ms[..done - 1]), CallsOf(ms[done - 1]));
  }

  // ----- which matters are run -----------------------------------------------------------------------------

  /** Both arms, or the one that ran, went through without a problem. */
  predicate IsClean(m: Matter) {
    m.failed || (!m.first.problems && !m.second.problems)
  }

  /** No call costs less than nothing. */
  predicate NoRefunds(calls: seq<Call>) {
    forall i :: 0 <= i < |calls| ==> calls[i].usd >= 0.0
  }

  lemma {:induction false} CostNotNegative(calls: seq<Call>)
    requires NoRefunds(calls)
    ensures CostOf(calls) >= 0.0
  {
    if calls != [] {
      CostNotNegative(calls[..|calls| - 1]);
    }
  }

  /** The totals do not go down from matter to matter. */
  lemma {:induction false} TotalsGrow(ms: seq<Matter>, j: nat, k: nat)
    requires j <= k <= |ms| && forall i :: 0 <= i < |ms| ==> NoRefunds(CallsOf(ms[i]))
    ensures SpentOn(ms, j) <= SpentOn(ms, k) && UsedOn(ms[..j]) <= UsedOn(ms[..k])
  {
    if j < k {
      TotalsGrow(ms, j, k - 1);
      AllCallsStep(ms, k - 1);
      CostOfConcat(AllCalls(ms[..k - 1]), CallsOf(ms[k - 1]));
      CostNotNegative(CallsOf(ms[k - 1]));
    }
  }

  /**
   * What keeps a run going: with no failed arm but in the last matter, fewer tokens than the cap before
   * the last one, and room under the money cap for all before it and (in real mode) its worst case, every
   * matter is run.
   */
  lemma AllAreRun(ms: seq<Matter>, limits: Limits)
    requires ms != [] && limits.worstUsd >= 0.0 && forall i :: 0 <= i < |ms| ==> NoRefunds(CallsOf(ms[i]))
    requires forall i :: 0 <= i < |ms| - 1 ==> IsClean(ms[i])
    requires UsedOn(ms[..|ms| - 1]) < limits.maxTokens
    requires (SpentOn(ms, |ms| - 1) + if limits.dry then 0.0 else limits.worstUsd) * USD_INR <= BUDGET_INR
    ensures StartedTo(ms, |ms|, limits)
  {
    forall k | 0 <= k < |ms| ensures Starts(ms, k, limits) {
      TotalsGrow(ms, k, |ms| - 1);
    }
  }

  /**
   * What ends it: each matter that is run but the last left every arm clean and the spend within the cap,
   * and the tokens used before the last were fewer than the cap.
   */
  lemma RunStopsInTime(ms: seq<Matter>, done: nat, limits: Limits)
    requires 0 < done <= |ms| && StartedTo(ms, done, limits)
    ensures forall k :: 0 <= k < done - 1 ==> IsClean(ms[k]) && SpentOn(ms, k + 1) * USD_INR <= BUDGET_INR
    ensures UsedOn(ms[..done - 1]) < limits.maxTokens
  {
    forall k | 0 <= k < done - 1 ensures IsClean(ms[k]) && SpentOn(ms, k + 1) * USD_INR <= BUDGET_INR {
      assert Starts(ms, k + 1, limits);
    }
    assert Starts(ms, done - 1, limits);
  }

  /** The calls of the arms that ran. */
  function ArmCalls(m: Matter): seq<Call> {
    if m.failed then [] else m.first.calls + (if m.first.problems then [] else m.second.calls)
  }

  lemma {:induction false} TokensOfConcat(a: seq<Call>, b: seq<Call>)
    ensures TokensOf(a + b) == TokensOf(a) + TokensOf(b)
    ensures OfStage(a + b, true) == OfStage(a, true) + OfStage(b, true)
    ensures OfStage(a + b, false) == OfStage(a, false) + OfStage(b, false)
  {
    if b == [] {
      assert a + b == a;
    } else {
      var n := |b| - 1;
      assert (a + b)[..|a + b| - 1] == a + b[..n];
      TokensOfConcat(a, b[..n]);
    }
  }

  lemma {:induction false} StageTokensAddUp(calls: seq<Call>)
    ensures TokensOf(OfStage(calls, true)) + TokensOf(OfStage(calls, false)) == TokensOf(calls)
  {
    if calls != [] {
      var init, last := calls[..|calls| - 1], calls[|calls| - 1];
      StageTokensAddUp(init);
      TokensOfConcat(OfStage(init, last.body), [last]);
      assert [last][..0] == [];
      assert OfStage(calls, !last.body) == OfStage(init, !last.body);
    }
  }

  /** The tokens counted are those of all the matter's calls but the arms' calls outside the body. */
  lemma UsedMeaning(m: Matter)
    ensures CallsOf(m) == m.intake + ArmCalls(m)
    ensures UsedBy(m) == TokensOf(CallsOf(m)) - TokensOf(OfStage(ArmCalls(m), false))
  {
    TokensOfConcat(m.intake, ArmCalls(m));
    StageTokensAddUp(ArmCalls(m));
    if !m.failed {
      TokensOfConcat(m.first.calls, if m.first.problems then [] else m.second.calls);
      TokensOfConcat(OfStage(m.first.calls, true), if m.first.problems then [] else OfStage(m.second.calls, true));
    }
  }
}
