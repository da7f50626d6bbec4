/**
 * The one-off backfill of the payment history (runPaymentsBackfill in
 * apps/billing/scripts/backfill-payments.ts, with resolvePaymentContext and upsertPaymentFromEntity
 * of apps/billing/src/services/payment-record.service.ts). Users, subscriptions and payments are
 * numbers; what Razorpay answers for an entity is part of the entity.
 */
module PaymentsBackfill {
  import opened Options
  import opened Prefixes

  // ----- the data ------------------------------------------------------------------------------------

  datatype Kind = Plan | Topup

  /** Who and what a payment is for, the Ink it granted, and its subscription when the resolver knows it. */
  datatype Context = Context(user: nat, kind: Kind, ink: nat, sub: Option<nat>)

  /** What notes, order or claim say of a payment; else its local subscription; else nothing. */
  datatype Origin = FromTopup(user: nat, ink: nat) | FromSubscription(user: nat, sub: nat) | Nowhere

  /**
   * A payment entity in scope (captured or refunded): its id, whether amount_refunded is positive,
   * whether its amount is a valid number, where it comes from, and what subscriptionIdFor answers.
   */
  datatype Entity = Entity(id: Option<nat>, refunded: bool, amountOk: bool, origin: Origin, subId: Option<nat>)

  /** A Payment row; settled is a status of paid, partly_refunded or refunded. */
  datatype Row = Row(user: nat, kind: Kind, sub: Option<nat>, ink: nat, settled: bool)

  /** A sub_renewal row of the ledger; a delta that is no positive number is 0. */
  datatype Grant = Grant(user: nat, sub: nat, delta: nat, stamp: Option<nat>)

  datatype Db = Db(rows: map<nat, Row>, ledger: seq<Grant>)

  /** What goes wrong for a payment: its lookups, the answer to its stamp, or its write. */
  datatype Fault = Fine | LookupFails | StampUnanswered | WriteFails

  datatype Report = Report(written: int, recorded: int, attributed: int, ambiguous: int, unattributed: int,
                           unattributedIds: seq<nat>, ambiguousIds: seq<nat>, refundedKept: seq<nat>)

  const NOTHING := Report(0, 0, 0, 0, 0, [], [], [])

  // ----- what the run reads ---------------------------------------------------------------------------

  /** The ledger places whose grant satisfies `p`, in order. */
  function Where(ledger: seq<Grant>, p: Grant -> bool): (places: seq<nat>)
    ensures forall i: nat :: i in places <==> i < |ledger| && p(ledger[i])
    ensures forall k :: 0 <= k < |places| ==> places[k] < |ledger|
  {
    if ledger == [] then []
    else
      var n := |ledger| - 1;
      Where(ledger[..n], p) + (if p(ledger[n]) then [n] else [])
  }

  /** confirmedPlanGrantUnits: the one grant of the user stamped with the payment id. */
  function Confirmed(ledger: seq<Grant>, user: nat, id: nat): nat {
    var places := Where(ledger, (g: Grant) => g.user == user && g.stamp == Some(id));
    if |places| == 1 then ledger[places[0]].delta else 0
  }

  /** unstampedGrants */
  function Unstamped(ledger: seq<Grant>, user: nat, sub: nat): (places: seq<nat>)
    ensures forall i: nat :: i in places <==> i < |ledger| && IsUnstamped(ledger[i], user, sub)
    ensures forall k :: 0 <= k < |places| ==> places[k] < |ledger|
  {
    Where(ledger, (g: Grant) => IsUnstamped(g, user, sub))
  }

  predicate IsUnstamped(g: Grant, user: nat, sub: nat) {
    g.user == user && g.sub == sub && g.stamp == None
  }

  /** resolvePaymentContext, then subscriptionContext: an existing row answers for itself. */
  function Resolve(p: Entity, db: Db): Option<Context> {
    if p.id.Some? && p.id.value in db.rows then
      var r := db.rows[p.id.value];
      Some(Context(r.user, r.kind, r.ink, None))
    else match p.origin
      case FromTopup(user, ink) => Some(Context(user, Topup, ink, None))
      case FromSubscription(user, sub) =>
        Some(Context(user, Plan, if p.id.Some? then Confirmed(db.ledger, user, p.id.value) else 0, Some(sub)))
      case Nowhere => None
  }

  /** The subscription a plan payment is resolved to. */
  function SubOf(p: Entity, ctx: Option<Context>): Option<nat> {
    if ctx.None? || ctx.value.kind != Plan then None
    else if ctx.value.sub.Some? then ctx.value.sub
    else p.subId
  }

  /** What pass 1 knows: each payment's context and subscription, and each subscription's payments. */
  datatype Plans = Plans(resolved: map<nat, (Option<Context>, Option<nat>)>, bySub: map<nat, set<nat>>)

  function Planned(plans: Plans, p: Entity, db: Db): Plans {
    if p.id.None? then plans
    else
      var id := p.id.value;
      var ctx := Resolve(p, db);
      var sub := SubOf(p, ctx);
      Plans(plans.resolved[id := (ctx, sub)],
            if sub.None? then plans.bySub
            else plans.bySub[sub.value := IdsOf(plans, sub.value) + {id}])
  }

  function IdsOf(plans: Plans, sub: nat): set<nat> {
    if sub in plans.bySub then plans.bySub[sub] else {}
  }

  /** Pass 1 */
  function PlanAll(ps: seq<Entity>, db: Db): Plans {
    if ps == [] then Plans(map[], map[]) else Planned(PlanAll(ps[..|ps| - 1], db), ps[|ps| - 1], db)
  }

  predicate Inked(rows: map<nat, Row>, sub: nat) {
    exists id :: id in rows && rows[id].sub == Some(sub) && rows[id].ink > 0
  }

  function SettledIds(rows: map<nat, Row>, sub: nat): set<nat> {
    set id | id in rows && rows[id].sub == Some(sub) && rows[id].settled
  }

  /** capturedPlanCharges */
  function Charges(rows: map<nat, Row>, sub: nat, ids: set<nat>, invoices: nat): nat {
    var known := |ids + SettledIds(rows, sub)|;
    if invoices > known then invoices else known
  }

  /** The grant a plan payment is attributed: the only unstamped one, of the only charge. */
  function GrantFor(db: Db, user: nat, sub: Option<nat>, plans: Plans, invoices: nat -> nat): (g: Option<nat>)
    ensures g.Some? ==> sub.Some? && g.value < |db.ledger| && IsUnstamped(db.ledger[g.value], user, sub.value)
  {
    if sub.None? then None
    else
      var places := Unstamped(db.ledger, user, sub.value);
      if |places| == 1 && db.ledger[places[0]].delta > 0 && !Inked(db.rows, sub.value)
         && Charges(db.rows, sub.value, IdsOf(plans, sub.value), invoices(sub.value)) == 1
      then assert places[0] in places; Some(places[0]) else None
  }

  // ----- what the run writes ---------------------------------------------------------------------------

  /** The stamp: only if the grant is still without one. */
  function Stamp(ledger: seq<Grant>, i: nat, id: nat): seq<Grant>
    requires i < |ledger|
  {
    if ledger[i].stamp == None then ledger[i := ledger[i].(stamp := Some(id))] else ledger
  }

  function Max(a: nat, b: nat): nat {
    if a < b then b else a
  }

  /** upsertPaymentFromEntity: user, kind and subscription are kept once set, Ink never goes down. */
  function Upsert(rows: map<nat, Row>, id: nat, ctx: Context): map<nat, Row> {
    rows[id := if id in rows
               then rows[id].(sub := if rows[id].sub.Some? then rows[id].sub else ctx.sub,
                              ink := Max(rows[id].ink, ctx.ink), settled := true)
               else Row(ctx.user, ctx.kind, ctx.sub, ctx.ink, true)]
  }

  // ----- the run -----------------------------------------------------------------------------------------

  datatype State = State(db: Db, report: Report)

  /** The same for every payment of a run. */
  datatype Run = Run(apply: bool, plans: Plans, invoices: nat -> nat, fault: nat -> Fault)

  predicate NeedsGrant(ctx: Context) {
    ctx.kind == Plan && ctx.ink == 0
  }

  /** The grant that is found for a payment whose context shows none. */
  function Found(run: Run, db: Db, id: nat, ctx: Context): (g: Option<nat>)
    ensures g.Some? ==> g.value < |db.ledger| && db.ledger[g.value].stamp == None
  {
    if !NeedsGrant(ctx) || run.fault(id) == LookupFails then None
    else
      var sub := if id in run.plans.resolved then run.plans.resolved[id].1 else None;
      GrantFor(db, ctx.user, sub, run.plans, run.invoices)
  }

  /** The context that is written: the grant's Ink when the grant was won. */
  function Credited(run: Run, db: Db, id: nat, ctx: Context): Context {
    var g := Found(run, db, id, ctx);
    if g.Some? && !(run.apply && run.fault(id) == StampUnanswered) then ctx.(ink := db.ledger[g.value].delta) else ctx
  }

  function StampFound(run: Run, db: Db, id: nat, ctx: Context): Db {
    var g := Found(run, db, id, ctx);
    if g.Some? && run.apply then db.(ledger := Stamp(db.ledger, g.value, id)) else db
  }

  /** Attributed or ambiguous, when the payment needed a grant. */
  function ReportGrant(report: Report, id: nat, ctx: Context, credited: Context): Report {
    if !NeedsGrant(ctx) then report
    else if credited.ink > 0 then report.(attributed := report.attributed + 1)
    else report.(ambiguous := report.ambiguous + 1, ambiguousIds := report.ambiguousIds + [id])
  }

  function ReportWrite(run: Run, report: Report, id: nat, isNew: bool, amountOk: bool, attributed: bool): Report {
    if run.apply && run.fault(id) == WriteFails && amountOk then
      if id in report.ambiguousIds then report
      else report.(attributed := report.attributed - if attributed then 1 else 0,
                   ambiguous := report.ambiguous + 1, ambiguousIds := report.ambiguousIds + [id])
    else if isNew && (run.apply ==> amountOk) then report.(written := report.written + 1)
    else report
  }

  function WriteRow(run: Run, db: Db, id: nat, amountOk: bool, ctx: Context): Db {
    if run.apply && amountOk && run.fault(id) != WriteFails then db.(rows := Upsert(db.rows, id, ctx)) else db
  }

  /** Pass 2 for one payment. */
  function Step(run: Run, st: State, p: Entity): State {
    if p.id.None? then st
    else
      var id := p.id.value;
      var ctx := if id in run.plans.resolved then run.plans.resolved[id].0 else None;
      if ctx.None? then
        st.(report := st.report.(unattributed := st.report.unattributed + 1,
                                 unattributedIds := st.report.unattributedIds + [id]))
      else
        var report := if p.refunded then st.report.(refundedKept := st.report.refundedKept + [id]) else st.report;
        if id in st.db.rows && st.db.rows[id].ink > 0 then
          State(st.db, report.(recorded := report.recorded + 1))
        else
          var credited := Credited(run, st.db, id, ctx.value);
          var report2 := ReportGrant(report, id, ctx.value, credited);
          State(WriteRow(run, StampFound(run, st.db, id, ctx.value), id, p.amountOk, credited),
                ReportWrite(run, report2, id, id !in st.db.rows, p.amountOk, NeedsGrant(ctx.value) && credited.ink > 0))
  }

  /** Pass 2 */
  function Steps(run: Run, st: State, ps: seq<Entity>): State {
    if ps == [] then st else Step(run, Steps(run, st, ps[..|ps| - 1]), ps[|ps| - 1])
  }

  function Backfilled(db: Db, ps: seq<Entity>, apply: bool, invoices: nat -> nat, fault: nat -> Fault): State {
    Steps(Run(apply, PlanAll(ps, db), invoices, fault), State(db, NOTHING), ps)
  }

  /** The two collections the run works on. */
  class Billing {
    var rows: map<nat, Row>
    var ledger: seq<Grant>

    function Current(): Db
      reads this
    {
      Db(rows, ledger)
    }

    /** findOneAndUpdate with the empty stamp in its filter: true when this call set it. */
    method StampGrant(i: nat, id: nat) returns (stamped: bool)
      requires i < |ledger|
      modifies this`ledger
      ensures ledger == Stamp(old(ledger), i, id) && stamped == (old(ledger)[i].stamp == None)
    {
      stamped := ledger[i].stamp == None;
      if stamped {
        ledger := ledger[i := ledger[i].(stamp := Some(id))];
      }
    }

    method UpsertPayment(id: nat, ctx: Context)
      modifies this`rows
      ensures rows == Upsert(old(rows), id, ctx)
    {
      if id in rows {
        var r := rows[id];
        var sub := if r.sub.Some? then r.sub else ctx.sub;
        rows := rows[id := r.(sub := sub, ink := Max(r.ink, ctx.ink), settled := true)];
      } else {
        rows := rows[id := Row(ctx.user, ctx.kind, ctx.sub, ctx.ink, true)];
      }
    }

    /** Pass 1 */
    method PlanPayments(ps: seq<Entity>) returns (plans: Plans)
      ensures plans == PlanAll(ps, Current())
    {
      plans := Plans(map[], map[]);
      for n := 0 to |ps|
        invariant plans == PlanAll(ps[..n], Current())
      {
        PrefixStep(ps, n);
        plans := Planned(plans, ps[n], Current());
      }
      PrefixAll(ps);
    }

    /** The one-shot attribution of one payment. */
    method Attribute(run: Run, id: nat, ctx: Context) returns (credited: Context)
      modifies this`ledger
      ensures credited == Credited(run, old(Current()), id, ctx)
      ensures Current() == StampFound(run, old(Current()), id, ctx)
    {
      credited := ctx;
      var g := Found(run, Current(), id, ctx);
      if g.Some? {
        var delta := ledger[g.value].delta;
        var won := true;
        if run.apply {
          won := StampGrant(g.value, id);
          won := won && run.fault(id) != StampUnanswered;
        }
        if won {
          credited := ctx.(ink := delta);
        }
      }
    }

    method BackfillOne(run: Run, report0: Report, p: Entity) returns (report: Report)
      modifies this
      ensures State(Current(), report) == Step(run, State(old(Current()), report0), p)
    {
      report := report0;
      if p.id.None? {
        return;
      }
      var id := p.id.value;
      var ctx := if id in run.plans.resolved then run.plans.resolved[id].0 else None;
      if ctx.None? {
        report := report.(unattributed := report.unattributed + 1, unattributedIds := report.unattributedIds + [id]);
        return;
      }
      if p.refunded {
        report := report.(refundedKept := report.refundedKept + [id]);
      }
      var isNew := id !in rows;
      if !isNew && rows[id].ink > 0 {
        report := report.(recorded := report.recorded + 1);
        return;
      }
      var credited := Attribute(run, id, ctx.value);
      report := ReportGrant(report, id, ctx.value, credited);
      if run.apply && p.amountOk && run.fault(id) != WriteFails {
        UpsertPayment(id, credited);
      }
      report := ReportWrite(run, report, id, isNew, p.amountOk, NeedsGrant(ctx.value) && credited.ink > 0);
    }

    /** runPaymentsBackfill */
    method RunPaymentsBackfill(ps: seq<Entity>, apply: bool, invoices: nat -> nat, fault: nat -> Fault)
      returns (report: Report)
      modifies this
      ensures State(Current(), report) == Backfilled(old(Current()), ps, apply, invoices, fault)
    {
      var plans := PlanPayments(ps);
      var run := Run(apply, plans, invoices, fault);
      report := NOTHING;
      for n := 0 to |ps|
        invariant State(Current(), report) == Steps(run, State(old(Current()), NOTHING), ps[..n])
      {
        PrefixStep(ps, n);
        report := BackfillOne(run, report, ps[n]);
      }
      PrefixAll(ps);
    }
  }
}
