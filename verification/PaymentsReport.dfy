/**
 * What the payments backfill reports and writes, said of the payments and of the collections as they were
 * before the run (runPaymentsBackfill in apps/billing/scripts/backfill-payments.ts, with
 * resolvePaymentContext and upsertPaymentFromEntity of apps/billing/src/services/payment-record.service.ts).
 */
module PaymentsReport {
  import opened Options
  import opened PaymentsBackfill
  import opened PaymentsDryRun
  import opened Prefixes

  // ----- the payments, by what the collections say of them ------------------------------------------------

  /** The ids of the payments that `pick` takes, in order. */
  function Listed(ps: seq<Entity>, pick: Entity -> bool): (ids: seq<nat>)
  {
    if ps == [] then []
    else
      var p := ps[|ps| - 1];
      Listed(ps[..|ps| - 1], pick) + if p.id.Some? && pick(p) then [p.id.value] else []
  }

  lemma {:induction false} ListedMeaning(ps: seq<Entity>, pick: Entity -> bool, id: nat)
    ensures id in Listed(ps, pick) <==> exists p :: p in ps && p.id == Some(id) && pick(p)
  {
    if ps != [] {
      var n := |ps| - 1;
      ListedMeaning(ps[..n], pick, id);
      assert ps == ps[..n] + [ps[n]];
      if p :| p in ps && p.id == Some(id) && pick(p) {
        assert p in ps[..n] || p == ps[n];
      }
      assert forall p :: p in ps[..n] ==> p in ps;
    }
  }

  predicate HasContext(p: Entity, db: Db) {
    p.id.Some? && Resolve(p, db).Some?
  }

  /** Its row holds Ink. */
  predicate IsInked(p: Entity, db: Db) {
    p.id.Some? && p.id.value in db.rows && db.rows[p.id.value].ink > 0
  }

  /** A plan payment without Ink in its row, or without a row and without a grant that names it. */
  predicate IsOpen(p: Entity, db: Db) {
    HasContext(p, db) && !IsInked(p, db) && Resolve(p, db).value.kind == Plan && Resolve(p, db).value.ink == 0
  }

  /** Its row cannot be written. */
  predicate CannotWrite(p: Entity, db: Db, apply: bool, fault: nat -> Fault) {
    HasContext(p, db) && !IsInked(p, db) && apply && p.amountOk && fault(p.id.value) == WriteFails
  }

  /** It has no row and gets one, or would in a dry run. */
  predicate GetsRow(p: Entity, db: Db, apply: bool, fault: nat -> Fault) {
    && HasContext(p, db) && p.id.value !in db.rows
    && (apply ==> p.amountOk && fault(p.id.value) != WriteFails)
  }

  // ----- the report ------------------------------------------------------------------------------------------

  /** The report after the payments `ps`. */
  predicate Says(r: Report, db: Db, ps: seq<Entity>, apply: bool, fault: nat -> Fault) {
    && r.refundedKept == Listed(ps, (p: Entity) => p.refunded && HasContext(p, db))
    && r.unattributedIds == Listed(ps, (p: Entity) => !HasContext(p, db))
    && r.unattributed == |r.unattributedIds|
    && r.recorded == |Listed(ps, (p: Entity) => IsInked(p, db))|
    && r.written == |Listed(ps, (p: Entity) => GetsRow(p, db, apply, fault))|
    && r.ambiguous == |r.ambiguousIds|
    && r.attributed + r.ambiguous
       == |Listed(ps, (p: Entity) => IsOpen(p, db) || CannotWrite(p, db, apply, fault))|
    && (forall id :: id in r.ambiguousIds ==> IsListed(ps, id))
  }

  /** The rows of payments that were not yet taken are as they were. */
  ghost predicate RestUntouched(db: Db, now: Db, ps: seq<Entity>) {
    forall id: nat :: !IsListed(ps, id) ==> SameRow(db.rows, now.rows, id)
  }

  lemma StepTouchesOwn(run: Run, st: State, p: Entity, id: nat)
    requires p.id != Some(id)
    ensures SameRow(st.db.rows, Step(run, st, p).db.rows, id)
  {
  }

  lemma {:induction false} StepsTouchListed(run: Run, db: Db, ps: seq<Entity>)
    ensures RestUntouched(db, Steps(run, State(db, NOTHING), ps).db, ps)
  {
    if ps != [] {
      var n := |ps| - 1;
      var st := Steps(run, State(db, NOTHING), ps[..n]);
      StepsTouchListed(run, db, ps[..n]);
      PrefixAll(ps);
      forall id: nat | !IsListed(ps, id) ensures SameRow(db.rows, Step(run, st, ps[n]).db.rows, id) {
        ListedNext(ps, n, id);
        StepTouchesOwn(run, st, ps[n], id);
      }
    }
  }

  lemma ListedStep(ps: seq<Entity>, n: nat, pick: Entity -> bool)
    requires n < |ps|
    ensures Listed(ps[..n + 1], pick)
         == Listed(ps[..n], pick) + if ps[n].id.Some? && pick(ps[n]) then [ps[n].id.value] else []
  {
    PrefixStep(ps, n);
  }

  lemma ListedGoesOn(ps: seq<Entity>, n: nat)
    requires n < |ps|
    ensures forall id: nat :: IsListed(ps[..n], id) ==> IsListed(ps[..n + 1], id)
    ensures ps[n].id.Some? ==> IsListed(ps[..n + 1], ps[n].id.value)
  {
    assert ps[..n + 1][n] == ps[n];
    forall id: nat | IsListed(ps[..n], id) ensures IsListed(ps[..n + 1], id) {
      var k :| 0 <= k < n && ps[..n][k].id == Some(id);
      assert ps[..n + 1][k] == ps[..n][k];
    }
  }

  /** What one payment adds to the report. */
  predicate Adds(r: Report, after: Report, p: Entity, db: Db, apply: bool, fault: nat -> Fault)
    requires p.id.Some?
  {
    var id := p.id.value;
    && after.refundedKept == r.refundedKept + (if p.refunded && HasContext(p, db) then [id] else [])
    && after.unattributedIds == r.unattributedIds + (if !HasContext(p, db) then [id] else [])
    && after.unattributed == r.unattributed + (if !HasContext(p, db) then 1 else 0)
    && after.recorded == r.recorded + (if IsInked(p, db) then 1 else 0)
    && after.written == r.written + (if GetsRow(p, db, apply, fault) then 1 else 0)
    && after.ambiguous - |after.ambiguousIds| == r.ambiguous - |r.ambiguousIds|
    && after.attributed + after.ambiguous
       == r.attributed + r.ambiguous + (if IsOpen(p, db) || CannotWrite(p, db, apply, fault) then 1 else 0)
    && (forall x :: x in after.ambiguousIds ==> x in r.ambiguousIds || x == id)
  }

  lemma StepAdds(run: Run, st: State, p: Entity, db: Db)
    requires p.id.Some? && Knows(run.plans, p, db) && SameRow(db.rows, st.db.rows, p.id.value)
    requires p.id.value !in st.report.ambiguousIds
    ensures Adds(st.report, Step(run, st, p).report, p, db, run.apply, run.fault)
  {
    if HasContext(p, db) && !IsInked(p, db) {
      TurnAdds(run, st, p, db, Resolve(p, db).value);
    }
  }

  /** A payment with a context and without Ink in its row. */
  lemma TurnAdds(run: Run, st: State, p: Entity, db: Db, ctx: Context)
    requires HasContext(p, db) && !IsInked(p, db) && Resolve(p, db) == Some(ctx)
    requires Knows(run.plans, p, db) && SameRow(db.rows, st.db.rows, p.id.value)
    requires p.id.value !in st.report.ambiguousIds
    ensures Adds(st.report, Step(run, st, p).report, p, db, run.apply, run.fault)
  {
    TurnReport(run, st, p, ctx);
    GrantAndWriteAdd(run, st.report, p, db, ctx, Credited(run, st.db, p.id.value, ctx));
  }

  /** The report of such a payment's turn, with so much credited. */
  function ReportOf(run: Run, report: Report, p: Entity, isNew: bool, ctx: Context, credited: Context): Report
    requires p.id.Some?
  {
    var r0 := if p.refunded then report.(refundedKept := report.refundedKept + [p.id.value]) else report;
    ReportWrite(run, ReportGrant(r0, p.id.value, ctx, credited), p.id.value, isNew, p.amountOk, IsWon(ctx, credited))
  }

  predicate IsWon(ctx: Context, credited: Context) {
    NeedsGrant(ctx) && credited.ink > 0
  }

  predicate IsNew(db: Db, id: nat) {
    id !in db.rows
  }

  lemma TurnReport(run: Run, st: State, p: Entity, ctx: Context)
    requires p.id.Some? && p.id.value in run.plans.resolved && run.plans.resolved[p.id.value].0 == Some(ctx)
    requires p.id.value in st.db.rows ==> st.db.rows[p.id.value].ink == 0
    ensures Step(run, st, p).report
         == ReportOf(run, st.report, p, IsNew(st.db, p.id.value), ctx, Credited(run, st.db, p.id.value, ctx))
  {
  }

  lemma GrantAndWriteAdd(run: Run, report: Report, p: Entity, db: Db, ctx: Context, credited: Context)
    requires HasContext(p, db) && !IsInked(p, db) && Resolve(p, db) == Some(ctx)
    requires p.id.value !in report.ambiguousIds
    ensures Adds(report, ReportOf(run, report, p, IsNew(db, p.id.value), ctx, credited), p, db, run.apply, run.fault)
  {
    var id := p.id.value;
    var r0 := if p.refunded then report.(refundedKept := report.refundedKept + [id]) else report;
    GrantAdds(r0, id, ctx, credited);
    WriteAdds(run, ReportGrant(r0, id, ctx, credited), id, IsNew(db, id), p.amountOk,
              IsWon(ctx, credited));
  }

  lemma GrantAdds(report: Report, id: nat, ctx: Context, credited: Context)
    ensures var r := ReportGrant(report, id, ctx, credited);
      && r.attributed + r.ambiguous == report.attributed + report.ambiguous + (if NeedsGrant(ctx) then 1 else 0)
      && r.ambiguous - |r.ambiguousIds| == report.ambiguous - |report.ambiguousIds|
      && r.(attributed := 0, ambiguous := 0, ambiguousIds := [])
         == report.(attributed := 0, ambiguous := 0, ambiguousIds := [])
      && (forall x :: x in r.ambiguousIds ==> x in report.ambiguousIds || x == id)
      && (id !in report.ambiguousIds ==> (id in r.ambiguousIds <==> NeedsGrant(ctx) && credited.ink == 0))
  {
  }

  lemma WriteAdds(run: Run, report: Report, id: nat, isNew: bool, amountOk: bool, attributed: bool)
    ensures var r := ReportWrite(run, report, id, isNew, amountOk, attributed);
      var failed := run.apply && run.fault(id) == WriteFails && amountOk;
      && r.attributed + r.ambiguous
         == report.attributed + report.ambiguous
            + (if failed && id !in report.ambiguousIds && !attributed then 1 else 0)
      && r.ambiguous - |r.ambiguousIds| == report.ambiguous - |report.ambiguousIds|
      && r.written == report.written + (if isNew && (run.apply ==> amountOk && !failed) then 1 else 0)
      && r.(attributed := 0, ambiguous := 0, ambiguousIds := [], written := 0)
         == report.(attributed := 0, ambiguous := 0, ambiguousIds := [], written := 0)
      && (forall x :: x in r.ambiguousIds ==> x in report.ambiguousIds || x == id)
  {
  }

  lemma {:induction false} ReportSays(run: Run, db: Db, ps: seq<Entity>, n: nat)
    requires DistinctIds(ps) && n <= |ps| && run.plans == PlanAll(ps, db)
    ensures Says(Steps(run, State(db, NOTHING), ps[..n]).report, db, ps[..n], run.apply, run.fault)
  {
    if n > 0 {
      ReportSays(run, db, ps, n - 1);
      PrefixStep(ps, n - 1);
      OneMoreSays(run, db, ps, n - 1, Steps(run, State(db, NOTHING), ps[..n - 1]));
    }
  }

  lemma OneMoreSays(run: Run, db: Db, ps: seq<Entity>, n: nat, st: State)
    requires DistinctIds(ps) && n < |ps| && run.plans == PlanAll(ps, db)
    requires st == Steps(run, State(db, NOTHING), ps[..n]) && Says(st.report, db, ps[..n], run.apply, run.fault)
    ensures Says(Step(run, st, ps[n]).report, db, ps[..n + 1], run.apply, run.fault)
  {
    ListsStep(db, ps, n, run.apply, run.fault);
    ListedGoesOn(ps, n);
    if ps[n].id.Some? {
      PlansKnow(ps, db);
      assert Knows(PlanAll(ps, db), ps[n], db);
      NotListed(ps, n);
      StepsTouchListed(run, db, ps[..n]);
      StepAdds(run, st, ps[n], db);
    }
  }

  /** Each list goes on with the payment, or does not. */
  lemma ListsStep(db: Db, ps: seq<Entity>, n: nat, apply: bool, fault: nat -> Fault)
    requires n < |ps|
    ensures Extends(ps, n, (p: Entity) => p.refunded && HasContext(p, db))
    ensures Extends(ps, n, (p: Entity) => !HasContext(p, db))
    ensures Extends(ps, n, (p: Entity) => IsInked(p, db))
    ensures Extends(ps, n, (p: Entity) => GetsRow(p, db, apply, fault))
    ensures Extends(ps, n, (p: Entity) => IsOpen(p, db) || CannotWrite(p, db, apply, fault))
  {
    ListedStep(ps, n, (p: Entity) => p.refunded && HasContext(p, db));
    ListedStep(ps, n, (p: Entity) => !HasContext(p, db));
    ListedStep(ps, n, (p: Entity) => IsInked(p, db));
    ListedStep(ps, n, (p: Entity) => GetsRow(p, db, apply, fault));
    ListedStep(ps, n, (p: Entity) => IsOpen(p, db) || CannotWrite(p, db, apply, fault));
  }

  predicate Extends(ps: seq<Entity>, n: nat, pick: Entity -> bool)
    requires n < |ps|
  {
    Listed(ps[..n + 1], pick)
    == Listed(ps[..n], pick) + if ps[n].id.Some? && pick(ps[n]) then [ps[n].id.value] else []
  }

  /**
   * In every run, dry or applied, whatever fails: the refunded payments listed are those that have a
   * context, the unattributed those that have none, the recorded those whose row held Ink before the run,
   * the written those that get a row; and those attributed and those ambiguous are together the open plan
   * payments and those whose write failed.
   */
  lemma ReportMeaning(db: Db, ps: seq<Entity>, apply: bool, invoices: nat -> nat, fault: nat -> Fault)
    requires DistinctIds(ps)
    ensures Says(Backfilled(db, ps, apply, invoices, fault).report, db, ps, apply, fault)
  {
    ReportSays(Run(apply, PlanAll(ps, db), invoices, fault), db, ps, |ps|);
    PrefixAll(ps);
  }

  // ----- which grant a payment gets --------------------------------------------------------------------------

  /** The subscription has one grant without a stamp, of positive Ink, and it is the one at `g`. */
  predicate IsOnlyGrant(ledger: seq<Grant>, user: nat, sub: nat, g: nat) {
    && g < |ledger| && IsUnstamped(ledger[g], user, sub) && ledger[g].delta > 0
    && forall i :: 0 <= i < |ledger| && IsUnstamped(ledger[i], user, sub) ==> i == g
  }

  /** No payment of the subscription holds Ink. */
  ghost predicate HasNoInk(db: Db, sub: nat) {
    forall id: nat :: RowOf(db.rows, id, sub) ==> db.rows[id].ink == 0
  }

  /**
   * The payment is the subscription's only charge: of the payments given and of the settled rows no other
   * is one of the subscription, and Razorpay counts at most one paid invoice.
   */
  ghost predicate IsOnlyCharge(db: Db, ps: seq<Entity>, p: Entity, sub: nat, invoices: nat) {
    && invoices <= 1
    && (forall q :: q in ps && ResolvesTo(q, db, sub) ==> q.id == p.id)
    && (forall id: nat :: RowOf(db.rows, id, sub) && db.rows[id].settled ==> p.id == Some(id))
  }

  /** Pass 1 knows of a subscription the payments that resolve to it, and no others. */
  lemma {:induction false} PlansAre(ps: seq<Entity>, db: Db, sub: nat, id: nat)
    ensures id in IdsOf(PlanAll(ps, db), sub) <==> exists q :: q in ps && q.id == Some(id) && ResolvesTo(q, db, sub)
  {
    if ps != [] {
      var n := |ps| - 1;
      PlansAre(ps[..n], db, sub, id);
      assert ps == ps[..n] + [ps[n]];
      if q :| q in ps && q.id == Some(id) && ResolvesTo(q, db, sub) {
        assert q in ps[..n] || q == ps[n];
      }
      assert forall q :: q in ps[..n] ==> q in ps;
    }
  }

  lemma OneElement(s: set<nat>, id: nat)
    requires id in s
    ensures |s| == 1 <==> forall x :: x in s ==> x == id
  {
    if |s| == 1 {
      forall x | x in s ensures x == id {
        SubsetSize({x, id}, s);
      }
    }
    if forall x :: x in s ==> x == id {
      assert s == {id};
    }
  }

  /** The charges that are counted are one exactly when the payment is the only one. */
  lemma ChargesMeaning(db: Db, ps: seq<Entity>, p: Entity, sub: nat, invoices: nat)
    requires p in ps && ResolvesTo(p, db, sub)
    ensures Charges(db.rows, sub, IdsOf(PlanAll(ps, db), sub), invoices) == 1
       <==> IsOnlyCharge(db, ps, p, sub, invoices)
  {
    var id, ids, settled := p.id.value, IdsOf(PlanAll(ps, db), sub), SettledIds(db.rows, sub);
    PlansAre(ps, db, sub, id);
    OneElement(ids + settled, id);
    if IsOnlyCharge(db, ps, p, sub, invoices) {
      forall x | x in ids + settled ensures x == id {
        PlansAre(ps, db, sub, x);
        assert x in settled ==> RowOf(db.rows, x, sub);
      }
    }
    if |ids + settled| == 1 {
      forall q | q in ps && ResolvesTo(q, db, sub) ensures q.id == p.id {
        PlansAre(ps, db, sub, q.id.value);
      }
      forall x: nat | RowOf(db.rows, x, sub) && db.rows[x].settled ensures p.id == Some(x) {
        assert x in settled;
      }
    }
  }

  lemma OnlyGrantMeaning(ledger: seq<Grant>, user: nat, sub: nat, g: nat)
    ensures (var places := Unstamped(ledger, user, sub);
             |places| == 1 && places[0] == g && ledger[g].delta > 0) <==> IsOnlyGrant(ledger, user, sub, g)
  {
    var places := Unstamped(ledger, user, sub);
    if IsOnlyGrant(ledger, user, sub, g) {
      WhereIsOne(ledger, (x: Grant) => IsUnstamped(x, user, sub), g);
    }
    if |places| == 1 && places[0] == g {
      forall i: nat | i < |ledger| && IsUnstamped(ledger[i], user, sub) ensures i == g {
        assert i in places;
      }
      assert g in places;
    }
  }

  lemma {:induction false} WhereIsNone(ledger: seq<Grant>, p: Grant -> bool)
    requires forall j :: 0 <= j < |ledger| ==> !p(ledger[j])
    ensures Where(ledger, p) == []
  {
    if ledger != [] {
      WhereIsNone(ledger[..|ledger| - 1], p);
    }
  }

  lemma {:induction false} WhereIsOne(ledger: seq<Grant>, p: Grant -> bool, i: nat)
    requires i < |ledger| && p(ledger[i]) && forall j :: 0 <= j < |ledger| && p(ledger[j]) ==> j == i
    ensures Where(ledger, p) == [i]
  {
    var n := |ledger| - 1;
    if i < n {
      WhereIsOne(ledger[..n], p, i);
    } else {
      WhereIsNone(ledger[..n], p);
    }
  }

  /**
   * A payment gets a grant exactly when that is its subscription's only unstamped one, none of the
   * subscription's payments holds Ink, and the payment is its only charge.
   */
  lemma GrantMeaning(db: Db, ps: seq<Entity>, p: Entity, user: nat, sub: nat, invoices: nat -> nat, g: nat)
    requires p in ps && ResolvesTo(p, db, sub)
    ensures GrantFor(db, user, Some(sub), PlanAll(ps, db), invoices) == Some(g)
       <==> IsOnlyGrant(db.ledger, user, sub, g) && HasNoInk(db, sub) && IsOnlyCharge(db, ps, p, sub, invoices(sub))
  {
    OnlyGrantMeaning(db.ledger, user, sub, g);
    ChargesMeaning(db, ps, p, sub, invoices(sub));
    if HasNoInk(db, sub) && Inked(db.rows, sub) {
      var id :| id in db.rows && db.rows[id].sub == Some(sub) && db.rows[id].ink > 0;
      assert RowOf(db.rows, id, sub);
    }
  }

  // ----- what a payment is for ---------------------------------------------------------------------------------

  /** The one grant of the user that names the payment. */
  predicate IsOnlyNaming(ledger: seq<Grant>, user: nat, id: nat, g: nat) {
    && g < |ledger| && ledger[g].user == user && ledger[g].stamp == Some(id)
    && forall i :: 0 <= i < |ledger| && ledger[i].user == user && ledger[i].stamp == Some(id) ==> i == g
  }

  lemma ConfirmedMeaning(ledger: seq<Grant>, user: nat, id: nat)
    ensures forall g: nat :: IsOnlyNaming(ledger, user, id, g) ==> Confirmed(ledger, user, id) == ledger[g].delta
    ensures Confirmed(ledger, user, id) > 0 ==> exists g: nat :: IsOnlyNaming(ledger, user, id, g)
  {
    forall g: nat | IsOnlyNaming(ledger, user, id, g) ensures Confirmed(ledger, user, id) == ledger[g].delta {
      WhereIsOne(ledger, (x: Grant) => x.user == user && x.stamp == Some(id), g);
    }
    if Confirmed(ledger, user, id) > 0 {
      var g := ConfirmedNames(ledger, user, id);
    }
  }

  lemma ConfirmedNames(ledger: seq<Grant>, user: nat, id: nat) returns (g: nat)
    requires Confirmed(ledger, user, id) > 0
    ensures IsOnlyNaming(ledger, user, id, g)
  {
    var names := (x: Grant) => x.user == user && x.stamp == Some(id);
    var places := Where(ledger, names);
    g := places[0];
    assert g in places;
    forall i: nat | i < |ledger| && names(ledger[i]) ensures i == g {
      assert i in places;
    }
  }

  /**
   * Whom and what a payment is for: its own row says so; or else its notes, order or claim, with the Ink
   * they name; or else its subscription, with the Ink of the one grant that names the payment; or nothing
   * does.
   */
  lemma ContextMeaning(p: Entity, db: Db, id: nat)
    requires p.id == Some(id)
    ensures id in db.rows ==> Resolve(p, db) == Some(Context(db.rows[id].user, db.rows[id].kind, db.rows[id].ink, None))
    ensures id !in db.rows && p.origin.FromTopup? ==>
              Resolve(p, db) == Some(Context(p.origin.user, Topup, p.origin.ink, None))
    ensures id !in db.rows && p.origin.FromSubscription? ==>
              && Resolve(p, db).Some?
              && var user, sub, ctx := p.origin.user, p.origin.sub, Resolve(p, db).value;
                && ctx.user == user && ctx.kind == Plan && ctx.sub == Some(sub)
                && (forall g: nat :: IsOnlyNaming(db.ledger, user, id, g) ==> ctx.ink == db.ledger[g].delta)
                && (ctx.ink > 0 ==> exists g: nat :: IsOnlyNaming(db.ledger, user, id, g))
    ensures id !in db.rows && p.origin == Nowhere ==> Resolve(p, db) == None
  {
    if p.origin.FromSubscription? {
      ConfirmedMeaning(db.ledger, p.origin.user, id);
    }
  }

  // ----- which payments are attributed -------------------------------------------------------------------------

  lemma {:induction false} DrySays(run: Run, db: Db, ps: seq<Entity>, n: nat)
    requires DistinctIds(ps) && n <= |ps| && run.plans == PlanAll(ps, db) && !run.apply && AllFine(run.fault)
    ensures var r := Steps(run, State(db, NOTHING), ps[..n]).report;
      && r.attributed == |Listed(ps[..n], (p: Entity) => IsAttributed(p, db, run.plans, run.invoices))|
      && r.ambiguousIds
         == Listed(ps[..n], (p: Entity) => IsOpen(p, db) && !IsAttributed(p, db, run.plans, run.invoices))
  {
    if n > 0 {
      var p := ps[n - 1];
      DrySays(run, db, ps, n - 1);
      PrefixStep(ps, n - 1);
      ListedStep(ps, n - 1, (p: Entity) => IsAttributed(p, db, run.plans, run.invoices));
      ListedStep(ps, n - 1, (p: Entity) => IsOpen(p, db) && !IsAttributed(p, db, run.plans, run.invoices));
      DryRunWritesNothing(run, State(db, NOTHING), ps[..n - 1]);
      if p.id.Some? {
        PlansKnow(ps, db);
        assert Knows(PlanAll(ps, db), p, db);
        DryStepSays(run, Steps(run, State(db, NOTHING), ps[..n - 1]), p);
      }
    }
  }

  lemma DryStepSays(run: Run, st: State, p: Entity)
    requires p.id.Some? && Knows(run.plans, p, st.db) && !run.apply && AllFine(run.fault)
    ensures var r := Step(run, st, p).report;
      && r.attributed
         == st.report.attributed + (if IsAttributed(p, st.db, run.plans, run.invoices) then 1 else 0)
      && r.ambiguousIds
         == st.report.ambiguousIds
            + (if IsOpen(p, st.db) && !IsAttributed(p, st.db, run.plans, run.invoices) then [p.id.value] else [])
  {
    assert run.fault(p.id.value) == Fine;
    if HasContext(p, st.db) && !IsInked(p, st.db) {
      TurnReport(run, st, p, Resolve(p, st.db).value);
    }
  }

  /**
   * The payments a dry run attributes are those that get a grant as the collections stand, and an applied
   * run attributes those of them that are not overtaken.
   */
  lemma AttributedMeaning(db: Db, ps: seq<Entity>, invoices: nat -> nat, fault: nat -> Fault)
    requires DistinctIds(ps) && AllFine(fault)
    ensures var dry, applied := Backfilled(db, ps, false, invoices, fault).report,
                                Backfilled(db, ps, true, invoices, fault).report;
      && dry.attributed == |Listed(ps, (p: Entity) => IsAttributed(p, db, PlanAll(ps, db), invoices))|
      && dry.ambiguousIds
         == Listed(ps, (p: Entity) => IsOpen(p, db) && !IsAttributed(p, db, PlanAll(ps, db), invoices))
      && applied.attributed == dry.attributed - Overtaken(db, ps, |ps|, invoices)
  {
    DrySays(Run(false, PlanAll(ps, db), invoices, fault), db, ps, |ps|);
    PrefixAll(ps);
    DryRunPredictsApply(db, ps, invoices, fault);
  }

  // ----- what an applied run leaves -------------------------------------------------------------------------

  /** Writing a payment's row: user, kind and subscription stay once set, Ink never falls, and it is settled. */
  lemma UpsertMeaning(rows: map<nat, Row>, id: nat, ctx: Context)
    ensures var after := Upsert(rows, id, ctx);
      && after.Keys == rows.Keys + {id} && after[id].settled
      && (forall x :: x in rows && x != id ==> after[x] == rows[x])
      && (id !in rows ==> after[id] == Row(ctx.user, ctx.kind, ctx.sub, ctx.ink, true))
      && (id in rows ==>
            && after[id].user == rows[id].user && after[id].kind == rows[id].kind
            && after[id].sub == (if rows[id].sub == None then ctx.sub else rows[id].sub)
            && rows[id].ink <= after[id].ink && ctx.ink <= after[id].ink
            && (after[id].ink == rows[id].ink || after[id].ink == ctx.ink))
  {
  }

  /** What the payment's row is when its own turn is over. */
  predicate IsLeft(p: Entity, db: Db, after: Db, won: Option<nat>)
    requires p.id.Some? && (won.Some? ==> won.value < |db.ledger|)
  {
    var id := p.id.value;
    if !HasContext(p, db) || IsInked(p, db) || !p.amountOk then SameRow(db.rows, after.rows, id)
    else
      && id in after.rows
      && var ctx, r := Resolve(p, db).value, after.rows[id];
        && r.user == ctx.user && r.kind == ctx.kind && r.settled
        && r.sub == (if id in db.rows && db.rows[id].sub.Some? then db.rows[id].sub else ctx.sub)
        && r.ink == (if won.Some? then db.ledger[won.value].delta else ctx.ink)
  }

  /** The grant that the n-th payment wins. */
  function Won(db: Db, ps: seq<Entity>, n: nat, invoices: nat -> nat): (g: Option<nat>)
    requires n < |ps|
    ensures g.Some? ==> g.value < |db.ledger|
  {
    if IsAttributed(ps[n], db, PlanAll(ps, db), invoices) && !IsOvertaken(db, ps, n, invoices)
    then GrantFor(db, Resolve(ps[n], db).value.user, SubOf(ps[n], Resolve(ps[n], db)), PlanAll(ps, db), invoices)
    else None
  }

  lemma OwnTurn(db: Db, ps: seq<Entity>, n: nat, invoices: nat -> nat, fault: nat -> Fault)
    requires DistinctIds(ps) && n < |ps| && ps[n].id.Some? && AllFine(fault)
    ensures var run := RunOf(true, db, ps, invoices, fault);
      var now := Steps(run, State(db, NOTHING), ps[..n]);
      var next := Step(run, now, ps[n]).db;
      && Apart(db, now.db, ps[..n]) && IsLeft(ps[n], db, next, Won(db, ps, n, invoices))
      && next.ledger == (if Won(db, ps, n, invoices).Some?
                         then Stamp(now.db.ledger, Won(db, ps, n, invoices).value, ps[n].id.value) else now.db.ledger)
  {
    var run := RunOf(true, db, ps, invoices, fault);
    var now := Steps(run, State(db, NOTHING), ps[..n]);
    RunsSideBySide(db, ps, n, invoices, fault);
    PlansKnow(ps, db);
    assert Knows(PlanAll(ps, db), ps[n], db);
    NotListed(ps, n);
    assert SameRow(db.rows, now.db.rows, ps[n].id.value);
    if HasContext(ps[n], db) && !IsInked(ps[n], db) {
      SameFound(db, ps, n, invoices, fault, now.db);
      FoundIsWon(db, ps, n, invoices, fault, now.db);
      TurnLeaves(run, now, ps[n], db, Won(db, ps, n, invoices));
    }
  }

  lemma FoundIsWon(db: Db, ps: seq<Entity>, n: nat, invoices: nat -> nat, fault: nat -> Fault, now: Db)
    requires DistinctIds(ps) && n < |ps| && AllFine(fault) && HasContext(ps[n], db)
    requires Knows(PlanAll(ps, db), ps[n], db)
    requires var ctx, id := Resolve(ps[n], db).value, ps[n].id.value;
      Found(RunOf(true, db, ps, invoices, fault), now, id, ctx)
      == if IsOvertaken(db, ps, n, invoices) then None else Found(RunOf(false, db, ps, invoices, fault), db, id, ctx)
    ensures Found(RunOf(true, db, ps, invoices, fault), now, ps[n].id.value, Resolve(ps[n], db).value)
         == Won(db, ps, n, invoices)
  {
    assert fault(ps[n].id.value) == Fine;
  }

  lemma TurnLeaves(run: Run, st: State, p: Entity, db: Db, won: Option<nat>)
    requires HasContext(p, db) && !IsInked(p, db) && Knows(run.plans, p, db) && run.apply && AllFine(run.fault)
    requires SameRow(db.rows, st.db.rows, p.id.value) && SameGrants(db.ledger, st.db.ledger)
    requires Found(run, st.db, p.id.value, Resolve(p, db).value) == won
    ensures won.Some? ==> won.value < |db.ledger|
    ensures IsLeft(p, db, Step(run, st, p).db, won)
    ensures Step(run, st, p).db.ledger
         == if won.Some? then Stamp(st.db.ledger, won.value, p.id.value) else st.db.ledger
  {
    var ctx := Resolve(p, db).value;
    var credited := if won.Some? then ctx.(ink := db.ledger[won.value].delta) else ctx;
    TurnWritesRow(run, st, p, ctx, credited);
    if p.amountOk {
      RowLeft(p, db, st.db.rows, ctx, credited);
    }
  }

  lemma TurnWritesRow(run: Run, st: State, p: Entity, ctx: Context, credited: Context)
    requires p.id.Some? && p.id.value in run.plans.resolved && run.plans.resolved[p.id.value].0 == Some(ctx)
    requires p.id.value in st.db.rows ==> st.db.rows[p.id.value].ink == 0
    requires run.apply && AllFine(run.fault)
    requires var g := Found(run, st.db, p.id.value, ctx);
      credited == if g.Some? then ctx.(ink := st.db.ledger[g.value].delta) else ctx
    ensures var g := Found(run, st.db, p.id.value, ctx);
      Step(run, st, p).db == Db(if p.amountOk then Upsert(st.db.rows, p.id.value, credited) else st.db.rows,
                                if g.Some? then Stamp(st.db.ledger, g.value, p.id.value) else st.db.ledger)
  {
    assert run.fault(p.id.value) == Fine;
  }

  lemma RowLeft(p: Entity, db: Db, rows: map<nat, Row>, ctx: Context, credited: Context)
    requires HasContext(p, db) && !IsInked(p, db) && SameRow(db.rows, rows, p.id.value)
    requires Resolve(p, db) == Some(ctx) && credited == ctx.(ink := credited.ink)
    ensures var id, next := p.id.value, Upsert(rows, p.id.value, credited);
      && id in next && next[id].user == ctx.user && next[id].kind == ctx.kind && next[id].settled
      && next[id].sub == (if id in db.rows && db.rows[id].sub.Some? then db.rows[id].sub else ctx.sub)
      && next[id].ink == credited.ink
  {
    if p.id.value in db.rows {
      ResolveOwn(p, db);
    }
  }

  /** A row answers for itself: its user and kind are those of its context. */
  lemma ResolveOwn(p: Entity, db: Db)
    requires HasContext(p, db) && p.id.value in db.rows
    ensures var ctx, r := Resolve(p, db).value, db.rows[p.id.value];
      ctx.user == r.user && ctx.kind == r.kind && ctx.ink == r.ink && ctx.sub == None
  {
  }

  /** Later turns leave the row alone. */
  lemma {:induction false} LaterTurnsKeep(run: Run, db: Db, ps: seq<Entity>, k: nat, n: nat)
    requires DistinctIds(ps) && k < n <= |ps| && ps[k].id.Some?
    ensures SameRow(Steps(run, State(db, NOTHING), ps[..k + 1]).db.rows,
                    Steps(run, State(db, NOTHING), ps[..n]).db.rows, ps[k].id.value)
  {
    if k + 1 < n {
      LaterTurnsKeep(run, db, ps, k, n - 1);
      PrefixStep(ps, n - 1);
      StepTouchesOwn(run, Steps(run, State(db, NOTHING), ps[..n - 1]), ps[n - 1], ps[k].id.value);
    }
  }

  /**
   * After an applied run in which no call fails: each listed payment's row is what it was, or is settled
   * with the Ink of the grant the payment won, or of its context; and rows of payments not listed are as
   * they were.
   */
  lemma AppliedRows(db: Db, ps: seq<Entity>, invoices: nat -> nat, fault: nat -> Fault, k: nat)
    requires DistinctIds(ps) && AllFine(fault) && k < |ps| && ps[k].id.Some?
    ensures var after := Backfilled(db, ps, true, invoices, fault).db;
      IsLeft(ps[k], db, after, Won(db, ps, k, invoices)) && RestUntouched(db, after, ps)
  {
    var run := RunOf(true, db, ps, invoices, fault);
    OwnTurn(db, ps, k, invoices, fault);
    PrefixStep(ps, k);
    LaterTurnsKeep(run, db, ps, k, |ps|);
    StepsTouchListed(run, db, ps);
    PrefixAll(ps);
  }
}
