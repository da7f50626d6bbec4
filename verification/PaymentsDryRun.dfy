/**
 * The dry run of the payments backfill: it writes nothing, and what it reports differs from what the
 * same run reports with --apply, which reads what it has itself written, in two cases only.
 */
module PaymentsDryRun {
  import opened Options
  import opened PaymentsBackfill
  import opened Prefixes

  /** No payment is listed twice. */
  predicate DistinctIds(ps: seq<Entity>) {
    forall i, j :: 0 <= i < j < |ps| && ps[i].id.Some? ==> ps[i].id != ps[j].id
  }

  predicate ResolvesTo(p: Entity, db: Db, s: nat) {
    p.id.Some? && SubOf(p, Resolve(p, db)) == Some(s)
  }

  ghost predicate AllFine(fault: nat -> Fault) {
    forall id :: fault(id) == Fine
  }

  /** A payment that a dry run counts as written, and that upsertPaymentFromEntity turns away. */
  predicate IsUnwritable(p: Entity, db: Db) {
    p.id.Some? && p.id.value !in db.rows && p.origin != Nowhere && !p.amountOk
  }

  function Unwritable(ps: seq<Entity>, db: Db): nat {
    if ps == [] then 0 else Unwritable(ps[..|ps| - 1], db) + (if IsUnwritable(ps[|ps| - 1], db) then 1 else 0)
  }

  lemma {:induction false} UnwritableNone(ps: seq<Entity>, db: Db)
    ensures Unwritable(ps, db) == 0 <==> forall p :: p in ps ==> !IsUnwritable(p, db)
  {
    if ps != [] {
      var n := |ps| - 1;
      UnwritableNone(ps[..n], db);
      assert ps == ps[..n] + [ps[n]];
    }
  }

  /** The payment's row names the subscription and holds no Ink, and --apply will settle it. */
  predicate Settles(p: Entity, db: Db, s: nat) {
    && p.id.Some? && p.amountOk && p.id.value in db.rows
    && db.rows[p.id.value].sub == Some(s) && db.rows[p.id.value].ink == 0 && !db.rows[p.id.value].settled
  }

  /** A payment to which a dry run attributes a grant. */
  predicate IsAttributed(p: Entity, db: Db, plans: Plans, invoices: nat -> nat) {
    && p.id.Some? && Resolve(p, db).Some? && NeedsGrant(Resolve(p, db).value)
    && GrantFor(db, Resolve(p, db).value.user, SubOf(p, Resolve(p, db)), plans, invoices).Some?
  }

  /** Such a payment, after one that --apply makes another charge of its subscription. */
  predicate IsOvertaken(db: Db, ps: seq<Entity>, n: nat, invoices: nat -> nat) {
    && n < |ps| && IsAttributed(ps[n], db, PlanAll(ps, db), invoices)
    && exists i :: 0 <= i < n && Settles(ps[i], db, SubOf(ps[n], Resolve(ps[n], db)).value)
  }

  /** How many of the first `n` are. */
  function Overtaken(db: Db, ps: seq<Entity>, n: nat, invoices: nat -> nat): nat {
    if n == 0 then 0 else Overtaken(db, ps, n - 1, invoices) + (if IsOvertaken(db, ps, n - 1, invoices) then 1 else 0)
  }

  lemma {:induction false} OvertakenNone(db: Db, ps: seq<Entity>, n: nat, invoices: nat -> nat)
    ensures Overtaken(db, ps, n, invoices) == 0 <==> forall k :: 0 <= k < n ==> !IsOvertaken(db, ps, k, invoices)
  {
    if n > 0 {
      OvertakenNone(db, ps, n - 1, invoices);
    }
  }

  /** A dry run leaves the collections as they are, whatever fails. */
  lemma {:induction false} DryRunWritesNothing(run: Run, st: State, ps: seq<Entity>)
    requires !run.apply
    ensures Steps(run, st, ps).db == st.db
  {
    if ps != [] {
      DryRunWritesNothing(run, st, ps[..|ps| - 1]);
    }
  }

  // ----- what pass 1 knows -------------------------------------------------------------------------------

  predicate Knows(plans: Plans, p: Entity, db: Db) {
    p.id.Some? ==>
      && p.id.value in plans.resolved
      && plans.resolved[p.id.value] == (Resolve(p, db), SubOf(p, Resolve(p, db)))
      && (SubOf(p, Resolve(p, db)).Some? ==> p.id.value in IdsOf(plans, SubOf(p, Resolve(p, db)).value))
  }

  lemma {:induction false} PlansKnow(ps: seq<Entity>, db: Db)
    requires DistinctIds(ps)
    ensures forall k :: 0 <= k < |ps| ==> Knows(PlanAll(ps, db), ps[k], db)
  {
    if ps != [] {
      var n := |ps| - 1;
      PlansKnow(ps[..n], db);
      forall k | 0 <= k < |ps| ensures Knows(PlanAll(ps, db), ps[k], db) {
        assert k < n ==> Knows(PlanAll(ps[..n], db), ps[..n][k], db);
      }
    }
  }

  // ----- what one subscription can see ---------------------------------------------------------------------

  /** The grants are the same but for their stamps. */
  predicate SameGrants(a: seq<Grant>, b: seq<Grant>) {
    && |a| == |b|
    && forall i :: 0 <= i < |a| ==> a[i].user == b[i].user && a[i].sub == b[i].sub && a[i].delta == b[i].delta
  }

  predicate SameStamps(a: seq<Grant>, b: seq<Grant>, s: nat)
    requires |a| == |b|
  {
    forall i :: 0 <= i < |a| && a[i].sub == s ==> a[i] == b[i]
  }

  predicate RowOf(rows: map<nat, Row>, id: nat, s: nat) {
    id in rows && rows[id].sub == Some(s)
  }

  ghost predicate SameRows(a: map<nat, Row>, b: map<nat, Row>, s: nat) {
    forall id: nat :: RowOf(a, id, s) || RowOf(b, id, s) ==> id in a && id in b && a[id] == b[id]
  }

  lemma {:induction false} SameUnstamped(a: seq<Grant>, b: seq<Grant>, user: nat, s: nat)
    requires SameGrants(a, b) && SameStamps(a, b, s)
    ensures Unstamped(a, user, s) == Unstamped(b, user, s)
  {
    if a != [] {
      SameUnstamped(a[..|a| - 1], b[..|b| - 1], user, s);
    }
  }

  lemma SameGrantFor(a: Db, b: Db, user: nat, s: nat, plans: Plans, invoices: nat -> nat)
    requires SameGrants(a.ledger, b.ledger) && SameStamps(a.ledger, b.ledger, s) && SameRows(a.rows, b.rows, s)
    ensures GrantFor(a, user, Some(s), plans, invoices) == GrantFor(b, user, Some(s), plans, invoices)
  {
    SameUnstamped(a.ledger, b.ledger, user, s);
    forall id: nat ensures RowOf(a.rows, id, s) <==> RowOf(b.rows, id, s) {
    }
    assert SettledIds(a.rows, s) == SettledIds(b.rows, s) by {
      forall id: nat ensures id in SettledIds(a.rows, s) <==> id in SettledIds(b.rows, s) {
        assert RowOf(a.rows, id, s) <==> RowOf(b.rows, id, s);
      }
    }
    assert Inked(a.rows, s) == Inked(b.rows, s) by {
      if id :| id in a.rows && a.rows[id].sub == Some(s) && a.rows[id].ink > 0 {
        assert RowOf(a.rows, id, s);
      }
      if id :| id in b.rows && b.rows[id].sub == Some(s) && b.rows[id].ink > 0 {
        assert RowOf(b.rows, id, s);
      }
    }
  }

  /** Two payments of one subscription: neither is its only charge, whatever the rows say. */
  lemma TwoCharges(db: Db, user: nat, s: nat, plans: Plans, invoices: nat -> nat, p: nat, q: nat)
    requires p != q && p in IdsOf(plans, s) && q in IdsOf(plans, s)
    ensures GrantFor(db, user, Some(s), plans, invoices) == None
  {
    var known := IdsOf(plans, s) + SettledIds(db.rows, s);
    assert {p, q} <= known;
    SubsetSize({p, q}, known);
  }

  lemma SubsetSize(a: set<nat>, b: set<nat>)
    requires a <= b
    ensures |a| <= |b|
  {
    assert b == a + (b - a);
  }

  /** The rows that name the subscription stay, with no less Ink and settled if they were. */
  ghost predicate RowsGrow(a: map<nat, Row>, b: map<nat, Row>, s: nat) {
    forall id: nat :: RowOf(a, id, s) ==> RowOf(b, id, s) && a[id].ink <= b[id].ink && (a[id].settled ==> b[id].settled)
  }

  /** As its rows grow, a subscription whose payment is known loses a grant or keeps it, but gains none. */
  lemma GrantNotGained(a: Db, b: Db, user: nat, s: nat, plans: Plans, invoices: nat -> nat, id: nat)
    requires SameGrants(a.ledger, b.ledger) && SameStamps(a.ledger, b.ledger, s) && RowsGrow(a.rows, b.rows, s)
    requires id in IdsOf(plans, s) && GrantFor(b, user, Some(s), plans, invoices).Some?
    ensures GrantFor(a, user, Some(s), plans, invoices) == GrantFor(b, user, Some(s), plans, invoices)
  {
    SameUnstamped(a.ledger, b.ledger, user, s);
    assert !Inked(a.rows, s) by {
      if x :| x in a.rows && a.rows[x].sub == Some(s) && a.rows[x].ink > 0 {
        assert RowOf(a.rows, x, s);
      }
    }
    forall x | x in SettledIds(a.rows, s) ensures x in SettledIds(b.rows, s) {
      assert RowOf(a.rows, x, s);
    }
    SubsetSize(IdsOf(plans, s) + SettledIds(a.rows, s), IdsOf(plans, s) + SettledIds(b.rows, s));
    SubsetSize({id}, IdsOf(plans, s) + SettledIds(a.rows, s));
  }

  /** A known payment and a settled row of another: no grant. */
  lemma SettledCharge(db: Db, user: nat, s: nat, plans: Plans, invoices: nat -> nat, p: nat, q: nat)
    requires p != q && p in SettledIds(db.rows, s) && q in IdsOf(plans, s)
    ensures GrantFor(db, user, Some(s), plans, invoices) == None
  {
    var known := IdsOf(plans, s) + SettledIds(db.rows, s);
    assert p in known && q in known;
    SubsetSize({p, q}, known);
    assert |known| >= 2 && Charges(db.rows, s, IdsOf(plans, s), invoices(s)) >= 2;
  }

  // ----- the two runs side by side -------------------------------------------------------------------------

  /** One of the payments resolves to the subscription. */
  ghost predicate Touched(ps: seq<Entity>, db: Db, s: nat) {
    exists k :: 0 <= k < |ps| && ResolvesTo(ps[k], db, s)
  }

  /**
   * The payment's row names the subscription, to which the payment does not resolve, and --apply may
   * change that row: it settles it, or credits it Ink of another subscription.
   */
  predicate Strays(p: Entity, db: Db, s: nat) {
    && p.id.Some? && p.id.value in db.rows && db.rows[p.id.value].sub == Some(s) && !ResolvesTo(p, db, s)
    && p.amountOk && db.rows[p.id.value].ink == 0
    && (!db.rows[p.id.value].settled || SubOf(p, Resolve(p, db)).Some?)
  }

  ghost predicate Strayed(ps: seq<Entity>, db: Db, s: nat) {
    exists k :: 0 <= k < |ps| && Strays(ps[k], db, s)
  }

  predicate IsListed(ps: seq<Entity>, id: nat) {
    exists k :: 0 <= k < |ps| && ps[k].id == Some(id)
  }

  /** What the applied run has changed after the payments `ps`. */
  ghost predicate Apart(db: Db, now: Db, ps: seq<Entity>) {
    && SameGrants(db.ledger, now.ledger)
    && (forall id: nat :: !IsListed(ps, id) ==> SameRow(db.rows, now.rows, id))
    && (forall s: nat :: !Touched(ps, db, s) ==> SameStamps(db.ledger, now.ledger, s))
    && (forall s: nat :: !Touched(ps, db, s) && !Strayed(ps, db, s) ==> SameRows(db.rows, now.rows, s))
    && (forall s: nat :: RowsGrow(db.rows, now.rows, s))
    && AllSettled(db, now, ps)
  }

  /** The rows that it settles are settled. */
  ghost predicate AllSettled(db: Db, now: Db, ps: seq<Entity>) {
    forall k, s: nat :: 0 <= k < |ps| && Settles(ps[k], db, s) ==> ps[k].id.value in SettledIds(now.rows, s)
  }

  predicate SameRow(a: map<nat, Row>, b: map<nat, Row>, id: nat) {
    if id in a then id in b && b[id] == a[id] else id !in b
  }

  /** What a payment finds in the dry run, it finds in the applied one, unless it is overtaken. */
  lemma NextFinds(db: Db, now: Db, ps: seq<Entity>, n: nat, invoices: nat -> nat)
    requires DistinctIds(ps) && n < |ps| && ps[n].id.Some? && Apart(db, now, ps[..n])
    requires Resolve(ps[n], db).Some? && NeedsGrant(Resolve(ps[n], db).value)
    ensures var ctx, plans := Resolve(ps[n], db).value, PlanAll(ps, db);
      var sub := SubOf(ps[n], Some(ctx));
      GrantFor(now, ctx.user, sub, plans, invoices)
      == if IsOvertaken(db, ps, n, invoices) then None else GrantFor(db, ctx.user, sub, plans, invoices)
  {
    var ctx, plans := Resolve(ps[n], db).value, PlanAll(ps, db);
    var sub := SubOf(ps[n], Some(ctx));
    PlansKnow(ps, db);
    assert Knows(plans, ps[n], db);
    if sub.Some? {
      if Touched(ps[..n], db, sub.value) {
        TouchedFindsNone(db, now, ps, n, ctx.user, sub.value, invoices);
      } else if GrantFor(db, ctx.user, sub, plans, invoices).Some? {
        UntouchedFinds(db, now, ps, n, ctx.user, sub.value, invoices);
      } else if GrantFor(now, ctx.user, sub, plans, invoices).Some? {
        GrantNotGained(db, now, ctx.user, sub.value, plans, invoices, ps[n].id.value);
      }
    }
  }

  lemma TouchedFindsNone(db: Db, now: Db, ps: seq<Entity>, n: nat, user: nat, s: nat, invoices: nat -> nat)
    requires DistinctIds(ps) && n < |ps| && ResolvesTo(ps[n], db, s) && Touched(ps[..n], db, s)
    ensures GrantFor(db, user, Some(s), PlanAll(ps, db), invoices) == None
    ensures GrantFor(now, user, Some(s), PlanAll(ps, db), invoices) == None
  {
    var plans := PlanAll(ps, db);
    PlansKnow(ps, db);
    var k :| 0 <= k < n && ResolvesTo(ps[..n][k], db, s);
    assert Knows(plans, ps[k], db) && Knows(plans, ps[n], db);
    TwoCharges(db, user, s, plans, invoices, ps[k].id.value, ps[n].id.value);
    TwoCharges(now, user, s, plans, invoices, ps[k].id.value, ps[n].id.value);
  }

  lemma UntouchedFinds(db: Db, now: Db, ps: seq<Entity>, n: nat, user: nat, s: nat, invoices: nat -> nat)
    requires DistinctIds(ps) && n < |ps| && ResolvesTo(ps[n], db, s) && !Touched(ps[..n], db, s)
        && Apart(db, now, ps[..n])
    requires GrantFor(db, user, Some(s), PlanAll(ps, db), invoices).Some?
    ensures GrantFor(now, user, Some(s), PlanAll(ps, db), invoices)
         == if exists i :: 0 <= i < n && Settles(ps[i], db, s) then None
            else GrantFor(db, user, Some(s), PlanAll(ps, db), invoices)
  {
    var plans := PlanAll(ps, db);
    PlansKnow(ps, db);
    assert Knows(plans, ps[n], db);
    if i :| 0 <= i < n && Settles(ps[i], db, s) {
      assert ps[..n][i] == ps[i];
      SettledCharge(now, user, s, plans, invoices, ps[i].id.value, ps[n].id.value);
    } else {
      if Strayed(ps[..n], db, s) {
        var k :| 0 <= k < n && Strays(ps[..n][k], db, s);
        SettledCharge(db, user, s, plans, invoices, ps[k].id.value, ps[n].id.value);
      } else {
        SameGrantFor(db, now, user, s, plans, invoices);
      }
    }
  }

  lemma ListedNext(ps: seq<Entity>, n: nat, id: nat)
    requires n < |ps| && !IsListed(ps[..n + 1], id)
    ensures !IsListed(ps[..n], id) && ps[n].id != Some(id)
  {
    assert ps[..n + 1][n] == ps[n];
    forall k | 0 <= k < n ensures ps[..n][k].id != Some(id) {
      assert ps[..n + 1][k] == ps[..n][k];
    }
  }

  lemma TouchedNext(ps: seq<Entity>, db: Db, n: nat, s: nat)
    requires n < |ps| && !Touched(ps[..n + 1], db, s)
    ensures !Touched(ps[..n], db, s) && !ResolvesTo(ps[n], db, s)
  {
    assert ps[..n + 1][n] == ps[n];
    forall k | 0 <= k < n ensures !ResolvesTo(ps[..n][k], db, s) {
      assert ps[..n + 1][k] == ps[..n][k];
    }
  }

  lemma StrayedNext(ps: seq<Entity>, db: Db, n: nat, s: nat)
    requires n < |ps| && !Strayed(ps[..n + 1], db, s)
    ensures !Strayed(ps[..n], db, s) && !Strays(ps[n], db, s)
  {
    assert ps[..n + 1][n] == ps[n];
    forall k | 0 <= k < n ensures !Strays(ps[..n][k], db, s) {
      assert ps[..n + 1][k] == ps[..n][k];
    }
  }

  lemma NotListed(ps: seq<Entity>, n: nat)
    requires DistinctIds(ps) && n < |ps| && ps[n].id.Some?
    ensures !IsListed(ps[..n], ps[n].id.value)
  {
  }

  /** What a payment's turn writes: its own row, and the stamp of a grant of its subscription. */
  ghost predicate IsTurn(db: Db, now: Db, next: Db, p: Entity, g: Option<nat>, ctx: Context) {
    && p.id.Some? && Resolve(p, db).Some? && ctx.sub == Resolve(p, db).value.sub
    && (SubOf(p, Resolve(p, db)).None? ==> ctx.ink == Resolve(p, db).value.ink)
    && (g.Some? ==> g.value < |now.ledger| && ResolvesTo(p, db, now.ledger[g.value].sub))
    && next.ledger == (if g.Some? then Stamp(now.ledger, g.value, p.id.value) else now.ledger)
    && (p.id.value in now.rows ==> now.rows[p.id.value].ink == 0)
    && next.rows == if p.amountOk then Upsert(now.rows, p.id.value, ctx) else now.rows
  }

  lemma TurnStaysApart(db: Db, now: Db, next: Db, ps: seq<Entity>, n: nat, g: Option<nat>, ctx: Context)
    requires n < |ps| && Apart(db, now, ps[..n]) && DistinctIds(ps) && IsTurn(db, now, next, ps[n], g, ctx)
    ensures Apart(db, next, ps[..n + 1])
  {
    NotListed(ps, n);
    forall x: nat | !IsListed(ps[..n + 1], x) ensures SameRow(db.rows, next.rows, x) {
      ListedNext(ps, n, x);
    }
    forall s: nat | !Touched(ps[..n + 1], db, s) ensures SameStamps(db.ledger, next.ledger, s) {
      TouchedNext(ps, db, n, s);
    }
    forall s: nat | !Touched(ps[..n + 1], db, s) && !Strayed(ps[..n + 1], db, s)
        ensures SameRows(db.rows, next.rows, s) {
      TouchedNext(ps, db, n, s);
      StrayedNext(ps, db, n, s);
      OtherRowsKept(db, now, next, ps[n], g, ctx, s);
    }
    TurnGrows(db, now, next, ps, n, g, ctx);
  }

  lemma OtherRowsKept(db: Db, now: Db, next: Db, p: Entity, g: Option<nat>, ctx: Context, s: nat)
    requires IsTurn(db, now, next, p, g, ctx) && SameRows(db.rows, now.rows, s)
    requires SameRow(db.rows, now.rows, p.id.value) && !ResolvesTo(p, db, s) && !Strays(p, db, s)
    ensures SameRows(db.rows, next.rows, s)
  {
    OwnRowKept(db, now, next, p, g, ctx, s);
    forall id: nat | RowOf(db.rows, id, s) || RowOf(next.rows, id, s)
      ensures id in db.rows && id in next.rows && db.rows[id] == next.rows[id]
    {
      assert id != p.id.value ==> SameRow(now.rows, next.rows, id);
    }
  }

  /** The payment's own row, when it names the subscription, is not changed by its turn. */
  lemma OwnRowKept(db: Db, now: Db, next: Db, p: Entity, g: Option<nat>, ctx: Context, s: nat)
    requires IsTurn(db, now, next, p, g, ctx) && SameRow(db.rows, now.rows, p.id.value)
    requires !ResolvesTo(p, db, s) && !Strays(p, db, s)
    ensures var id := p.id.value;
      (RowOf(db.rows, id, s) || RowOf(next.rows, id, s)) ==>
        id in db.rows && id in next.rows && db.rows[id] == next.rows[id]
  {
  }

  /** A turn takes nothing off any row, and settles the row it should. */
  lemma TurnGrows(db: Db, now: Db, next: Db, ps: seq<Entity>, n: nat, g: Option<nat>, ctx: Context)
    requires n < |ps| && Apart(db, now, ps[..n]) && DistinctIds(ps) && IsTurn(db, now, next, ps[n], g, ctx)
    ensures forall s: nat :: RowsGrow(db.rows, next.rows, s)
    ensures AllSettled(db, next, ps[..n + 1])
  {
    forall s: nat ensures RowsGrow(db.rows, next.rows, s) {
      assert RowsGrow(db.rows, now.rows, s);
      forall id: nat | RowOf(db.rows, id, s)
        ensures RowOf(next.rows, id, s) && db.rows[id].ink <= next.rows[id].ink
            && (db.rows[id].settled ==> next.rows[id].settled)
      {
        assert RowOf(now.rows, id, s);
      }
    }
    var qs := ps[..n + 1];
    forall k, s: nat | 0 <= k < |qs| && Settles(qs[k], db, s) ensures qs[k].id.value in SettledIds(next.rows, s) {
      if k < n {
        assert ps[..n][k] == qs[k];
        SettledStays(now, next, ps[n], ctx, qs[k].id.value, s);
      } else {
        assert RowOf(db.rows, ps[n].id.value, s) && RowsGrow(db.rows, now.rows, s);
      }
    }
  }

  lemma SettledStays(now: Db, next: Db, p: Entity, ctx: Context, id: nat, s: nat)
    requires p.id.Some? && (next.rows == now.rows || next.rows == Upsert(now.rows, p.id.value, ctx))
    requires id in SettledIds(now.rows, s)
    ensures id in SettledIds(next.rows, s)
  {
  }

  // ----- the theorem -----------------------------------------------------------------------------------------

  /** The reports, after so many unwritable payments and so many overtaken ones. */
  predicate ReportsApart(dry: Report, applied: Report, unwritable: int, overtaken: int) {
    && dry.written == applied.written + unwritable && dry.recorded == applied.recorded
    && dry.attributed == applied.attributed + overtaken && dry.ambiguous == applied.ambiguous - overtaken
    && dry.unattributed == applied.unattributed && dry.unattributedIds == applied.unattributedIds
    && dry.refundedKept == applied.refundedKept && (overtaken == 0 ==> dry.ambiguousIds == applied.ambiguousIds)
  }

  /** The applied run after as many payments as the dry run. */
  ghost predicate SideBySide(db: Db, ps: seq<Entity>, n: nat, invoices: nat -> nat, dry: State, applied: State)
    requires n <= |ps|
  {
    && dry.db == db && Apart(db, applied.db, ps[..n])
    && ReportsApart(dry.report, applied.report, Unwritable(ps[..n], db), Overtaken(db, ps, n, invoices))
  }

  function RunOf(apply: bool, db: Db, ps: seq<Entity>, invoices: nat -> nat, fault: nat -> Fault): Run {
    Run(apply, PlanAll(ps, db), invoices, fault)
  }

  /** The payment gets the same grant, and the same context to write, in both runs, or is overtaken. */
  lemma SameCredit(db: Db, ps: seq<Entity>, n: nat, invoices: nat -> nat, fault: nat -> Fault, now: Db)
    requires DistinctIds(ps) && n < |ps| && ps[n].id.Some? && AllFine(fault) && Apart(db, now, ps[..n])
    requires Resolve(ps[n], db).Some?
    ensures var ctx, id := Resolve(ps[n], db).value, ps[n].id.value;
      var dryRun, appliedRun := RunOf(false, db, ps, invoices, fault), RunOf(true, db, ps, invoices, fault);
      && Credited(appliedRun, now, id, ctx)
         == (if IsOvertaken(db, ps, n, invoices) then ctx else Credited(dryRun, db, id, ctx))
      && (IsOvertaken(db, ps, n, invoices) ==> NeedsGrant(ctx) && Credited(dryRun, db, id, ctx).ink > 0)
      && (Found(appliedRun, now, id, ctx).Some? ==>
            ResolvesTo(ps[n], db, now.ledger[Found(appliedRun, now, id, ctx).value].sub))
  {
    SameFound(db, ps, n, invoices, fault, now);
    assert fault(ps[n].id.value) == Fine;
  }

  lemma SameFound(db: Db, ps: seq<Entity>, n: nat, invoices: nat -> nat, fault: nat -> Fault, now: Db)
    requires DistinctIds(ps) && n < |ps| && ps[n].id.Some? && AllFine(fault) && Apart(db, now, ps[..n])
    requires Resolve(ps[n], db).Some?
    ensures var ctx, id := Resolve(ps[n], db).value, ps[n].id.value;
      var dryRun, appliedRun := RunOf(false, db, ps, invoices, fault), RunOf(true, db, ps, invoices, fault);
      && Found(appliedRun, now, id, ctx)
         == (if IsOvertaken(db, ps, n, invoices) then None else Found(dryRun, db, id, ctx))
      && (IsOvertaken(db, ps, n, invoices) ==>
            NeedsGrant(ctx) && Found(dryRun, db, id, ctx).Some?
            && db.ledger[Found(dryRun, db, id, ctx).value].delta > 0)
      && (Found(appliedRun, now, id, ctx).Some? ==>
            now.ledger[Found(appliedRun, now, id, ctx).value].delta
            == db.ledger[Found(appliedRun, now, id, ctx).value].delta
            && ResolvesTo(ps[n], db, now.ledger[Found(appliedRun, now, id, ctx).value].sub))
  {
    PlansKnow(ps, db);
    assert Knows(PlanAll(ps, db), ps[n], db);
    if NeedsGrant(Resolve(ps[n], db).value) {
      NextFinds(db, now, ps, n, invoices);
    }
    assert fault(ps[n].id.value) == Fine;
  }

  /** A payment's turn in both reports, whether it is overtaken or not. */
  lemma ReportsStep(dryRun: Run, appliedRun: Run, dry: State, applied: State, p: Entity, ctx: Context, lost: bool,
                    u: int, o: nat)
    requires !dryRun.apply && appliedRun.apply && p.id.Some? && ReportsApart(dry.report, applied.report, u, o)
    requires dryRun.fault(p.id.value) == appliedRun.fault(p.id.value) == Fine
    requires dryRun.plans == appliedRun.plans && p.id.value in dryRun.plans.resolved
        && dryRun.plans.resolved[p.id.value].0 == Some(ctx)
    requires SameRow(dry.db.rows, applied.db.rows, p.id.value)
    requires p.id.value in dry.db.rows && dry.db.rows[p.id.value].ink > 0 ==> !lost
    requires Credited(appliedRun, applied.db, p.id.value, ctx)
          == (if lost then ctx else Credited(dryRun, dry.db, p.id.value, ctx))
    requires lost ==> NeedsGrant(ctx) && Credited(dryRun, dry.db, p.id.value, ctx).ink > 0
    ensures ReportsApart(Step(dryRun, dry, p).report, Step(appliedRun, applied, p).report,
                         u + (if p.id.value !in dry.db.rows && !p.amountOk then 1 else 0), o + (if lost then 1 else 0))
  {
  }

  /** A payment's turn in both runs. */
  lemma Turn(db: Db, ps: seq<Entity>, n: nat, invoices: nat -> nat, fault: nat -> Fault, dry: State, applied: State)
    requires DistinctIds(ps) && n < |ps| && AllFine(fault) && SideBySide(db, ps, n, invoices, dry, applied)
    ensures SideBySide(db, ps, n + 1, invoices, Step(RunOf(false, db, ps, invoices, fault), dry, ps[n]),
                       Step(RunOf(true, db, ps, invoices, fault), applied, ps[n]))
  {
    PrefixStep(ps, n);
    if ps[n].id.None? {
      TurnWithoutWrite(db, ps, n, applied.db);
    } else {
      TurnReports(db, ps, n, invoices, fault, dry, applied);
      TurnWrites(db, ps, n, invoices, fault, applied);
    }
  }

  lemma TurnReports(db: Db, ps: seq<Entity>, n: nat, invoices: nat -> nat, fault: nat -> Fault, dry: State,
                    applied: State)
    requires DistinctIds(ps) && n < |ps| && ps[n].id.Some? && AllFine(fault)
        && SideBySide(db, ps, n, invoices, dry, applied)
    ensures var dry1, applied1 := Step(RunOf(false, db, ps, invoices, fault), dry, ps[n]),
                                  Step(RunOf(true, db, ps, invoices, fault), applied, ps[n]);
      && dry1.db == db
      && ReportsApart(dry1.report, applied1.report, Unwritable(ps[..n + 1], db), Overtaken(db, ps, n + 1, invoices))
  {
    PlansKnow(ps, db);
    assert Knows(PlanAll(ps, db), ps[n], db);
    PrefixStep(ps, n);
    if Resolve(ps[n], db).Some? {
      NotListed(ps, n);
      assert SameRow(db.rows, applied.db.rows, ps[n].id.value);
      SameCredit(db, ps, n, invoices, fault, applied.db);
      assert fault(ps[n].id.value) == Fine;
      ReportsStep(RunOf(false, db, ps, invoices, fault), RunOf(true, db, ps, invoices, fault), dry, applied, ps[n],
                  Resolve(ps[n], db).value, IsOvertaken(db, ps, n, invoices),
                  Unwritable(ps[..n], db), Overtaken(db, ps, n, invoices));
    }
  }

  lemma TurnWrites(db: Db, ps: seq<Entity>, n: nat, invoices: nat -> nat, fault: nat -> Fault, applied: State)
    requires DistinctIds(ps) && n < |ps| && ps[n].id.Some? && AllFine(fault) && Apart(db, applied.db, ps[..n])
    ensures Apart(db, Step(RunOf(true, db, ps, invoices, fault), applied, ps[n]).db, ps[..n + 1])
  {
    var p, id := ps[n], ps[n].id.value;
    var run := RunOf(true, db, ps, invoices, fault);
    PlansKnow(ps, db);
    assert Knows(PlanAll(ps, db), p, db);
    if Resolve(p, db).None? || (id in applied.db.rows && applied.db.rows[id].ink > 0) {
      NotListed(ps, n);
      assert SameRow(db.rows, applied.db.rows, id);
      TurnWithoutWrite(db, ps, n, applied.db);
    } else {
      var ctx := Resolve(p, db).value;
      SameCredit(db, ps, n, invoices, fault, applied.db);
      var credited := Credited(run, applied.db, id, ctx);
      var next := WriteRow(run, StampFound(run, applied.db, id, ctx), id, p.amountOk, credited);
      TurnStaysApart(db, applied.db, next, ps, n, Found(run, applied.db, id, ctx), credited);
    }
  }

  lemma TurnWithoutWrite(db: Db, ps: seq<Entity>, n: nat, now: Db)
    requires n < |ps| && Apart(db, now, ps[..n]) && forall s: nat :: !Settles(ps[n], db, s)
    ensures Apart(db, now, ps[..n + 1])
  {
    forall x: nat | !IsListed(ps[..n + 1], x) ensures SameRow(db.rows, now.rows, x) {
      ListedNext(ps, n, x);
    }
    forall s: nat | !Touched(ps[..n + 1], db, s) ensures SameStamps(db.ledger, now.ledger, s) {
      TouchedNext(ps, db, n, s);
    }
    forall s: nat | !Touched(ps[..n + 1], db, s) && !Strayed(ps[..n + 1], db, s)
        ensures SameRows(db.rows, now.rows, s) {
      TouchedNext(ps, db, n, s);
      StrayedNext(ps, db, n, s);
    }
    var qs := ps[..n + 1];
    forall k, s: nat | 0 <= k < |qs| && Settles(qs[k], db, s) ensures qs[k].id.value in SettledIds(now.rows, s) {
      assert k < n ==> ps[..n][k] == qs[k];
    }
  }

  lemma {:induction false} RunsSideBySide(db: Db, ps: seq<Entity>, n: nat, invoices: nat -> nat, fault: nat -> Fault)
    requires DistinctIds(ps) && n <= |ps| && AllFine(fault)
    ensures SideBySide(db, ps, n, invoices, Steps(RunOf(false, db, ps, invoices, fault), State(db, NOTHING), ps[..n]),
                       Steps(RunOf(true, db, ps, invoices, fault), State(db, NOTHING), ps[..n]))
  {
    if n > 0 {
      PrefixStep(ps, n - 1);
      RunsSideBySide(db, ps, n - 1, invoices, fault);
      Turn(db, ps, n - 1, invoices, fault,
           Steps(RunOf(false, db, ps, invoices, fault), State(db, NOTHING), ps[..n - 1]),
           Steps(RunOf(true, db, ps, invoices, fault), State(db, NOTHING), ps[..n - 1]));
    }
  }

  /**
   * The dry run predicts the applied run, count by count and id by id, if and only if no payment it
   * counts as written has an invalid amount, and none it counts as attributed comes after one whose
   * unsettled row names the same subscription. Each of the first is written in the dry run's count
   * only, and each of the second attributed in the dry run's and ambiguous in the applied one's.
   */
  lemma DryRunPredictsApply(db: Db, ps: seq<Entity>, invoices: nat -> nat, fault: nat -> Fault)
    requires DistinctIds(ps) && AllFine(fault)
    ensures var dry, applied := Backfilled(db, ps, false, invoices, fault), Backfilled(db, ps, true, invoices, fault);
      && dry.db == db
      && ReportsApart(dry.report, applied.report, Unwritable(ps, db), Overtaken(db, ps, |ps|, invoices))
      && (dry.report == applied.report <==>
            (forall p :: p in ps ==> !IsUnwritable(p, db))
            && (forall n :: 0 <= n < |ps| ==> !IsOvertaken(db, ps, n, invoices)))
  {
    RunsSideBySide(db, ps, |ps|, invoices, fault);
    PrefixAll(ps);
    UnwritableNone(ps, db);
    OvertakenNone(db, ps, |ps|, invoices);
  }

  // ----- such payments exist -----------------------------------------------------------------------------------

  /** An unsettled row names the subscription of the next payment; its own lookup gives no answer, or another. */
  function OvertakingDb(): Db {
    Db(map[1 := Row(7, Plan, Some(5), 0, false)], [Grant(7, 5, 20, None)])
  }

  function OvertakingPayment(subId: Option<nat>): Entity {
    Entity(Some(1), false, true, Nowhere, subId)
  }

  function OvertakenPayment(): Entity {
    Entity(Some(2), false, true, FromSubscription(7, 5), Some(5))
  }

  lemma PlanTwo(p: Entity, q: Entity, db: Db)
    ensures PlanAll([p, q], db) == Planned(Planned(Plans(map[], map[]), p, db), q, db)
  {
    assert [p, q][..1] == [p] && [p][..0] == [];
    assert PlanAll([p], db) == Planned(PlanAll([], db), p, db);
  }

  lemma WhereSingle(g: Grant, p: Grant -> bool)
    ensures Where([g], p) == if p(g) then [0] else []
  {
    assert [g][..0] == [];
  }

  lemma OvertakenResolves()
    ensures Resolve(OvertakenPayment(), OvertakingDb()) == Some(Context(7, Plan, 0, Some(5)))
    ensures SubOf(OvertakenPayment(), Resolve(OvertakenPayment(), OvertakingDb())) == Some(5)
  {
    WhereSingle(OvertakingDb().ledger[0], (g: Grant) => g.user == 7 && g.stamp == Some(2));
  }

  lemma OvertakingResolves(subId: Option<nat>)
    ensures SubOf(OvertakingPayment(subId), Resolve(OvertakingPayment(subId), OvertakingDb())) == subId
  {
  }

  lemma PlannedIds(plans: Plans, p: Entity, db: Db, s: nat)
    requires p.id.Some?
    ensures IdsOf(Planned(plans, p, db), s)
         == IdsOf(plans, s) + if SubOf(p, Resolve(p, db)) == Some(s) then {p.id.value} else {}
  {
  }

  lemma OvertakenPlans(subId: Option<nat>)
    requires subId != Some(5)
    ensures IdsOf(PlanAll([OvertakingPayment(subId), OvertakenPayment()], OvertakingDb()), 5) == {2}
  {
    var db, none := OvertakingDb(), Plans(map[], map[]);
    PlanTwo(OvertakingPayment(subId), OvertakenPayment(), db);
    OvertakingResolves(subId);
    OvertakenResolves();
    PlannedIds(none, OvertakingPayment(subId), db, 5);
    PlannedIds(Planned(none, OvertakingPayment(subId), db), OvertakenPayment(), db, 5);
  }

  lemma OneCharge(rows: map<nat, Row>, sub: nat, ids: set<nat>, id: nat, invoices: nat)
    requires ids == {id} && SettledIds(rows, sub) == {} && invoices <= 1
    ensures Charges(rows, sub, ids, invoices) == 1
  {
    assert ids + SettledIds(rows, sub) == {id};
  }

  lemma OvertakenGrant(subId: Option<nat>, invoices: nat -> nat)
    requires subId != Some(5) && invoices(5) <= 1
    ensures var plans := PlanAll([OvertakingPayment(subId), OvertakenPayment()], OvertakingDb());
      GrantFor(OvertakingDb(), 7, Some(5), plans, invoices) == Some(0)
  {
    OvertakenPlans(subId);
    WhereSingle(OvertakingDb().ledger[0], (g: Grant) => IsUnstamped(g, 7, 5));
    OneCharge(OvertakingDb().rows, 5, {2}, 2, invoices(5));
  }

  /**
   * A row that names subscription 5 and has not settled, and a charge of 5 after it, whose invoice is
   * paid or not: the dry run counts the charge attributed and the applied run does not, whether Razorpay
   * gives no subscription for the first payment (as when its answer fails) or another one.
   */
  lemma OvertakenExists(subId: Option<nat>, invoices: nat -> nat)
    requires subId != Some(5) && invoices(5) <= 1
    ensures IsOvertaken(OvertakingDb(), [OvertakingPayment(subId), OvertakenPayment()], 1, invoices)
  {
    OvertakenResolves();
    OvertakenGrant(subId, invoices);
    assert Settles(OvertakingPayment(subId), OvertakingDb(), 5);
    assert [OvertakingPayment(subId), OvertakenPayment()][0] == OvertakingPayment(subId);
  }
}
