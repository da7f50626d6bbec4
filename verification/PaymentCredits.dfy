/**
 * Runs of the payments backfill that overlap, stop anywhere and start again, beside the webhook
 * (apps/billing/scripts/backfill-payments.ts). Each read or write of the ledger, of the Payment rows or
 * of Razorpay's invoices is one action; what a run remembers between two actions is a job. Whatever they
 * do, a subscription's payments never hold more Ink than it was granted.
 */
module PaymentCredits {
  import opened Options
  import opened PaymentsBackfill
  import opened PaymentsDryRun

  /** What a run knows of one payment on its way through it. */
  datatype Job =
    | Idle
    | Unrecorded(id: nat)                       // pass 1 found no row for it
    | Sure(id: nat, ink: nat)                   // and the ledger names it
    | Planned(id: nat)                          // pass 1 saw no Ink for it
    | Seen(id: nat, place: nat)                 // pass 2 read the only unstamped grant there
    | Clear(id: nat, place: nat)                // no payment of the subscription holds Ink
    | Known(id: nat, place: nat, ids: set<nat>) // its settled rows are these
    | Chosen(id: nat, place: nat)               // it is the only charge
    | Held(id: nat, place: nat)                 // the grant is stamped with it

  /** The collections, and how many paid invoices each subscription has. */
  datatype World = World(db: Db, invoices: nat -> nat, jobs: seq<Job>)

  /** The user and the subscription a plan payment belongs to. */
  datatype Env = Env(own: nat -> (nat, nat))

  datatype Action =
    | ReadRow(job: nat, id: nat)
    | ReadLedger(job: nat)
    | ReadGrants(job: nat)
    | CheckInked(job: nat)
    | ReadSettled(job: nat)
    | CountCharges(job: nat, plans: Plans)
    | SetStamp(job: nat)
    | Credit(job: nat, sub: Option<nat>)
    | WriteZero(job: nat, sub: Option<nat>)
    | WriteSure(job: nat, sub: Option<nat>)
    | Charge(charged: nat)            // an invoice of the subscription is paid
    | NewGrant(id: nat, delta: nat)   // the webhook grants a charge and names it
    | Stop(job: nat)

  function UserOf(env: Env, id: nat): nat {
    env.own(id).0
  }

  function SubIdOf(env: Env, id: nat): nat {
    env.own(id).1
  }

  function Write(db: Db, env: Env, id: nat, ink: nat, sub: Option<nat>): Db {
    db.(rows := Upsert(db.rows, id, Context(UserOf(env, id), PaymentsBackfill.Kind.Plan, ink, sub)))
  }

  function WithJob(w: World, job: nat, j: Job): World
    requires job < |w.jobs|
  {
    w.(jobs := w.jobs[job := j])
  }

  function WithCharge(invoices: nat -> nat, sub: nat): nat -> nat {
    s => if s == sub then invoices(s) + 1 else invoices(s)
  }

  /** The row shows no Ink of the plan payment. */
  predicate RowLacksInk(db: Db, id: nat) {
    id in db.rows && db.rows[id].kind == PaymentsBackfill.Kind.Plan && db.rows[id].ink == 0
  }

  /** The user's and subscription's unstamped grants, as pass 2 reads them. */
  function GrantsOf(db: Db, env: Env, id: nat): seq<nat> {
    Unstamped(db.ledger, UserOf(env, id), SubIdOf(env, id))
  }

  /** capturedPlanCharges, from its two reads. */
  function ChargesOf(listed: set<nat>, settled: set<nat>, invoices: nat): nat {
    var known := |listed + settled|;
    if invoices > known then invoices else known
  }

  /** The webhook grants no payment that was recorded with Ink before grants carried payment ids. */
  ghost predicate MayGrant(db: Db, id: nat) {
    PlanInk(db.rows, id) > 0 ==> IsStamped(db.ledger, id)
  }

  predicate HasJob(w: World, job: nat) {
    job < |w.jobs|
  }

  /** A run's read. */
  function AfterRead(w: World, env: Env, a: Action): World {
    match a
    case ReadRow(job, id) =>
      if !HasJob(w, job) then w
      else if id !in w.db.rows then WithJob(w, job, Unrecorded(id))
      else if RowLacksInk(w.db, id) then WithJob(w, job, Planned(id)) else w
    case ReadLedger(job) =>
      if HasJob(w, job) && w.jobs[job].Unrecorded? then
        var id := w.jobs[job].id;
        var ink := Confirmed(w.db.ledger, UserOf(env, id), id);
        WithJob(w, job, if ink > 0 then Sure(id, ink) else Planned(id))
      else w
    case ReadGrants(job) =>
      if HasJob(w, job) && w.jobs[job].Planned? then
        var places := GrantsOf(w.db, env, w.jobs[job].id);
        if |places| == 1 && w.db.ledger[places[0]].delta > 0
        then WithJob(w, job, Seen(w.jobs[job].id, places[0])) else w
      else w
    case CheckInked(job) =>
      if HasJob(w, job) && w.jobs[job].Seen? && !Inked(w.db.rows, SubIdOf(env, w.jobs[job].id))
      then WithJob(w, job, Clear(w.jobs[job].id, w.jobs[job].place)) else w
    case ReadSettled(job) =>
      if HasJob(w, job) && w.jobs[job].Clear? then
        var id := w.jobs[job].id;
        WithJob(w, job, Known(id, w.jobs[job].place, SettledIds(w.db.rows, SubIdOf(env, id))))
      else w
    case CountCharges(job, plans) =>
      if HasJob(w, job) && w.jobs[job].Known? then
        var sub := SubIdOf(env, w.jobs[job].id);
        if ChargesOf(IdsOf(plans, sub), w.jobs[job].ids, w.invoices(sub)) == 1
        then WithJob(w, job, Chosen(w.jobs[job].id, w.jobs[job].place)) else w
      else w
    case _ => w
  }

  predicate IsRead(a: Action) {
    a.ReadRow? || a.ReadLedger? || a.ReadGrants? || a.CheckInked? || a.ReadSettled? || a.CountCharges?
  }

  /** A payment without Ink may be written so from when pass 1 saw none. */
  predicate MayWriteZero(j: Job) {
    !j.Idle? && !j.Unrecorded? && !j.Sure?
  }

  /** One action; one that cannot happen changes nothing. */
  ghost function Next(w: World, env: Env, a: Action): World {
    match a
    case SetStamp(job) =>
      if HasJob(w, job) && w.jobs[job].Chosen? && w.jobs[job].place < |w.db.ledger| then
        var j := w.jobs[job];
        if w.db.ledger[j.place].stamp == None
        then WithJob(w.(db := w.db.(ledger := Stamp(w.db.ledger, j.place, j.id))), job, Held(j.id, j.place))
        else WithJob(w, job, Planned(j.id))
      else w
    case Credit(job, sub) =>
      if HasJob(w, job) && w.jobs[job].Held? && w.jobs[job].place < |w.db.ledger| then
        var ink := w.db.ledger[w.jobs[job].place].delta;
        WithJob(w.(db := Write(w.db, env, w.jobs[job].id, ink, sub)), job, Idle)
      else w
    case WriteZero(job, sub) =>
      if HasJob(w, job) && MayWriteZero(w.jobs[job])
      then WithJob(w.(db := Write(w.db, env, w.jobs[job].id, 0, sub)), job, Idle) else w
    case WriteSure(job, sub) =>
      if HasJob(w, job) && w.jobs[job].Sure?
      then WithJob(w.(db := Write(w.db, env, w.jobs[job].id, w.jobs[job].ink, sub)), job, Idle) else w
    case Charge(charged) => w.(invoices := WithCharge(w.invoices, charged))
    case NewGrant(id, delta) =>
      if delta > 0 && MayGrant(w.db, id) then
        var g := Grant(UserOf(env, id), SubIdOf(env, id), delta, Some(id));
        w.(db := w.db.(ledger := w.db.ledger + [g]))
      else w
    case Stop(job) => if HasJob(w, job) then WithJob(w, job, Idle) else w
    case _ => AfterRead(w, env, a)
  }

  ghost function Play(w: World, env: Env, actions: seq<Action>): World {
    if actions == [] then w else Next(Play(w, env, actions[..|actions| - 1]), env, actions[|actions| - 1])
  }

  // ----- the invariant ----------------------------------------------------------------------------------

  predicate StampedAt(ledger: seq<Grant>, i: nat, id: nat) {
    i < |ledger| && ledger[i].stamp == Some(id)
  }

  ghost predicate IsStamped(ledger: seq<Grant>, id: nat) {
    exists i: nat :: StampedAt(ledger, i, id)
  }

  /** A grant of so much Ink names the payment. */
  ghost predicate NamedFor(ledger: seq<Grant>, id: nat, ink: nat) {
    exists i: nat :: StampedAt(ledger, i, id) && ledger[i].delta == ink
  }

  /** Every stamp names a payment of the grant's own user and subscription. */
  ghost predicate StampsFit(ledger: seq<Grant>, env: Env) {
    forall i: nat, id: nat :: StampedAt(ledger, i, id) ==>
      ledger[i].delta > 0 && ledger[i].user == UserOf(env, id) && ledger[i].sub == SubIdOf(env, id)
  }

  /** The grant at `place` is one of the payment's subscription. */
  predicate PlaceFits(ledger: seq<Grant>, env: Env, id: nat, place: nat) {
    && place < |ledger| && ledger[place].delta > 0
    && ledger[place].user == UserOf(env, id) && ledger[place].sub == SubIdOf(env, id)
  }

  /** No payment of the subscription held Ink before grants carried payment ids. */
  predicate NoneBefore(env: Env, other: set<nat>, sub: nat) {
    forall x :: x in other ==> SubIdOf(env, x) != sub
  }

  ghost predicate JobFits(ledger: seq<Grant>, env: Env, other: set<nat>, j: Job) {
    match j
    case Idle => true
    case Unrecorded(_) => true
    case Sure(id, ink) => ink > 0 && NamedFor(ledger, id, ink)
    case Planned(_) => true
    case Seen(id, place) => PlaceFits(ledger, env, id, place)
    case Clear(id, place) => PlaceFits(ledger, env, id, place) && NoneBefore(env, other, SubIdOf(env, id))
    case Known(id, place, _) => PlaceFits(ledger, env, id, place) && NoneBefore(env, other, SubIdOf(env, id))
    case Chosen(id, place) => PlaceFits(ledger, env, id, place) && NoneBefore(env, other, SubIdOf(env, id))
    case Held(id, place) => PlaceFits(ledger, env, id, place) && StampedAt(ledger, place, id)
  }

  /** The plan payment's Ink is the delta of a grant that names it. */
  ghost predicate InkFromGrant(db: Db, id: nat) {
    PlanInk(db.rows, id) > 0 ==> NamedFor(db.ledger, id, PlanInk(db.rows, id))
  }

  /** A payment recorded with Ink before grants carried payment ids: its row names its subscription. */
  ghost predicate RecordedBefore(db: Db, env: Env, id: nat) {
    PlanInk(db.rows, id) > 0 && db.rows[id].sub == Some(SubIdOf(env, id)) && !IsStamped(db.ledger, id)
  }

  ghost predicate RowFits(db: Db, env: Env, other: set<nat>, id: nat) {
    if id in other then RecordedBefore(db, env, id) else InkFromGrant(db, id)
  }

  /** What the payments `xs` of a subscription hold is covered by its unstamped grants. */
  ghost predicate Covered(db: Db, env: Env, other: set<nat>, xs: seq<nat>, user: nat, sub: nat) {
    Unrepeated(xs) && (forall x :: x in xs ==> x in other && env.own(x) == (user, sub)) ==>
      CreditedInk(db.rows, xs) <= UnstampedSum(db.ledger, user, sub)
  }

  /**
   * What every action keeps. `other` are the plan payments recorded with Ink before grants carried
   * payment ids.
   */
  ghost predicate Bounded(w: World, env: Env, other: set<nat>) {
    && StampsFit(w.db.ledger, env)
    && (forall k :: 0 <= k < |w.jobs| ==> JobFits(w.db.ledger, env, other, w.jobs[k]))
    && (forall id: nat :: RowFits(w.db, env, other, id))
    && (forall xs: seq<nat>, user: nat, sub: nat :: Covered(w.db, env, other, xs, user, sub))
  }

  // ----- sums of Ink -------------------------------------------------------------------------------------------

  predicate Unrepeated(ids: seq<nat>) {
    forall i, j :: 0 <= i < j < |ids| ==> ids[i] != ids[j]
  }

  /** The Ink of a plan payment's row. */
  function PlanInk(rows: map<nat, Row>, id: nat): nat {
    if id in rows && rows[id].kind == PaymentsBackfill.Kind.Plan then rows[id].ink else 0
  }

  function CreditedInk(rows: map<nat, Row>, ids: seq<nat>): nat {
    if ids == [] then 0 else CreditedInk(rows, ids[..|ids| - 1]) + PlanInk(rows, ids[|ids| - 1])
  }

  /** The deltas of the grants that satisfy `p`. */
  function DeltaSum(ledger: seq<Grant>, p: Grant -> bool): nat {
    if ledger == [] then 0
    else DeltaSum(ledger[..|ledger| - 1], p) + (if p(ledger[|ledger| - 1]) then ledger[|ledger| - 1].delta else 0)
  }

  /** All a subscription was granted. */
  function Granted(ledger: seq<Grant>, user: nat, sub: nat): nat {
    DeltaSum(ledger, (g: Grant) => g.user == user && g.sub == sub)
  }

  function UnstampedSum(ledger: seq<Grant>, user: nat, sub: nat): nat {
    DeltaSum(ledger, (g: Grant) => IsUnstamped(g, user, sub))
  }

  lemma {:induction false} SumAtLeast(ledger: seq<Grant>, p: Grant -> bool, i: nat)
    requires i < |ledger| && p(ledger[i])
    ensures DeltaSum(ledger, p) >= ledger[i].delta
  {
    if i < |ledger| - 1 {
      SumAtLeast(ledger[..|ledger| - 1], p, i);
    }
  }

  /** Sums over disjoint parts add up to no more than the whole. */
  lemma {:induction false} SumSplits(ledger: seq<Grant>, p: Grant -> bool, q: Grant -> bool, r: Grant -> bool)
    requires forall g :: g in ledger ==> !(p(g) && q(g)) && (p(g) || q(g) ==> r(g))
    ensures DeltaSum(ledger, p) + DeltaSum(ledger, q) <= DeltaSum(ledger, r)
  {
    if ledger != [] {
      var n := |ledger| - 1;
      assert ledger[n] in ledger && forall g :: g in ledger[..n] ==> g in ledger;
      SumSplits(ledger[..n], p, q, r);
    }
  }

  /** A sum over what a change of one grant leaves alone. */
  lemma {:induction false} SumSame(ledger: seq<Grant>, i: nat, g: Grant, p: Grant -> bool)
    requires i < |ledger| && !p(ledger[i]) && !p(g)
    ensures DeltaSum(ledger[i := g], p) == DeltaSum(ledger, p)
  {
    var n := |ledger| - 1;
    if i < n {
      SumSame(ledger[..n], i, g, p);
      assert ledger[i := g][..n] == ledger[..n][i := g];
    } else {
      assert ledger[i := g][..n] == ledger[..n];
    }
  }

  lemma SumAppend(ledger: seq<Grant>, g: Grant, p: Grant -> bool)
    ensures DeltaSum(ledger + [g], p) == DeltaSum(ledger, p) + (if p(g) then g.delta else 0)
  {
  }

  lemma {:induction false} SameInk(a: map<nat, Row>, b: map<nat, Row>, ids: seq<nat>)
    requires forall id :: id in ids ==> PlanInk(a, id) == PlanInk(b, id)
    ensures CreditedInk(a, ids) == CreditedInk(b, ids)
  {
    if ids != [] {
      assert ids[|ids| - 1] in ids && forall id :: id in ids[..|ids| - 1] ==> id in ids;
      SameInk(a, b, ids[..|ids| - 1]);
    }
  }

  // ----- every action keeps it -----------------------------------------------------------------------------

  /** What the ledger confirms, a grant names the payment for. */
  lemma ConfirmedIsNamed(ledger: seq<Grant>, env: Env, id: nat)
    requires Confirmed(ledger, UserOf(env, id), id) > 0
    ensures NamedFor(ledger, id, Confirmed(ledger, UserOf(env, id), id))
  {
    var places := Where(ledger, (g: Grant) => g.user == UserOf(env, id) && g.stamp == Some(id));
    assert places[0] in places;
    assert StampedAt(ledger, places[0], id);
  }

  /** Only its own place in `jobs` is another. */
  lemma OneJob(w: World, env: Env, other: set<nat>, job: nat, j: Job)
    requires Bounded(w, env, other) && HasJob(w, job) && JobFits(w.db.ledger, env, other, j)
    ensures Bounded(WithJob(w, job, j), env, other)
  {
  }

  lemma ReadFits(w: World, env: Env, other: set<nat>, a: Action)
    requires Bounded(w, env, other) && IsRead(a) && HasJob(w, a.job)
    ensures var v := AfterRead(w, env, a);
      v == w || (v == WithJob(w, a.job, v.jobs[a.job]) && JobFits(w.db.ledger, env, other, v.jobs[a.job]))
  {
    var j := w.jobs[a.job];
    assert JobFits(w.db.ledger, env, other, j);
    match a
    case ReadRow(job, id) =>
    case ReadLedger(job) =>
      if j.Unrecorded? && Confirmed(w.db.ledger, UserOf(env, j.id), j.id) > 0 {
        ConfirmedIsNamed(w.db.ledger, env, j.id);
      }
    case ReadGrants(job) =>
      if j.Planned? && |GrantsOf(w.db, env, j.id)| == 1 {
        assert GrantsOf(w.db, env, j.id)[0] in GrantsOf(w.db, env, j.id);
      }
    case CheckInked(job) =>
      if j.Seen? && !Inked(w.db.rows, SubIdOf(env, j.id)) {
        NotInkedBefore(w, env, other, SubIdOf(env, j.id));
      }
    case ReadSettled(job) =>
    case CountCharges(job, plans) =>
    case _ =>
  }

  lemma NotInkedBefore(w: World, env: Env, other: set<nat>, sub: nat)
    requires Bounded(w, env, other) && !Inked(w.db.rows, sub)
    ensures NoneBefore(env, other, sub)
  {
    forall x | x in other ensures SubIdOf(env, x) != sub {
      assert RowFits(w.db, env, other, x);
    }
  }

  lemma ReadKeeps(w: World, env: Env, other: set<nat>, a: Action)
    requires Bounded(w, env, other) && IsRead(a)
    ensures Bounded(Next(w, env, a), env, other)
  {
    if HasJob(w, a.job) {
      ReadFits(w, env, other, a);
      var v := AfterRead(w, env, a);
      if v != w {
        OneJob(w, env, other, a.job, v.jobs[a.job]);
      }
    }
  }

  lemma StampedAfter(ledger: seq<Grant>, place: nat, id: nat, x: nat)
    requires place < |ledger| && ledger[place].stamp == None
    ensures IsStamped(Stamp(ledger, place, id), x) <==> IsStamped(ledger, x) || x == id
  {
    var after := Stamp(ledger, place, id);
    if i: nat :| StampedAt(ledger, i, x) {
      assert StampedAt(after, i, x);
    }
    if i: nat :| StampedAt(after, i, x) {
      assert i != place ==> StampedAt(ledger, i, x);
    }
    assert StampedAt(after, place, id);
  }

  /** Grants are only added, and stamps only set. */
  predicate StampsKept(before: seq<Grant>, after: seq<Grant>) {
    |before| <= |after| && forall i :: 0 <= i < |before| ==>
      after[i].(stamp := None) == before[i].(stamp := None) && (before[i].stamp.Some? ==> after[i] == before[i])
  }

  lemma NamedStays(before: seq<Grant>, after: seq<Grant>, id: nat, ink: nat)
    requires StampsKept(before, after) && NamedFor(before, id, ink)
    ensures NamedFor(after, id, ink)
  {
    var i: nat :| StampedAt(before, i, id) && before[i].delta == ink;
    assert StampedAt(after, i, id);
  }

  lemma JobStays(before: seq<Grant>, after: seq<Grant>, env: Env, other: set<nat>, j: Job)
    requires StampsKept(before, after) && JobFits(before, env, other, j)
    ensures JobFits(after, env, other, j)
  {
    if j.Sure? {
      NamedStays(before, after, j.id, j.ink);
    } else if !j.Idle? && !j.Unrecorded? && !j.Planned? {
      assert PlaceFits(after, env, j.id, j.place);
    }
  }

  /** More stamps leave a row what it was, unless they name a payment recorded before. */
  lemma RowStays(db: Db, after: seq<Grant>, env: Env, other: set<nat>, x: nat)
    requires StampsKept(db.ledger, after) && RowFits(db, env, other, x)
    requires x in other ==> !IsStamped(after, x)
    ensures RowFits(db.(ledger := after), env, other, x)
  {
    if x !in other && PlanInk(db.rows, x) > 0 {
      NamedStays(db.ledger, after, x, PlanInk(db.rows, x));
    }
  }

  /** A stamp that a job sets names a payment of a subscription with no payment in `other`. */
  lemma StampFits(ledger: seq<Grant>, env: Env, other: set<nat>, id: nat, place: nat)
    requires JobFits(ledger, env, other, Chosen(id, place)) && ledger[place].stamp == None && StampsFit(ledger, env)
    ensures var after := Stamp(ledger, place, id);
      StampsKept(ledger, after) && StampsFit(after, env) && JobFits(after, env, other, Held(id, place)) && id !in other
  {
    var after := Stamp(ledger, place, id);
    forall i: nat, x: nat | StampedAt(after, i, x)
      ensures after[i].delta > 0 && after[i].user == UserOf(env, x) && after[i].sub == SubIdOf(env, x)
    {
      assert i != place ==> StampedAt(ledger, i, x);
    }
  }

  /** No subscription with a payment in `other` loses an unstamped grant. */
  lemma StampKeepsCover(db: Db, env: Env, other: set<nat>, id: nat, place: nat, xs: seq<nat>, user: nat, sub: nat)
    requires JobFits(db.ledger, env, other, Chosen(id, place)) && db.ledger[place].stamp == None
    requires Covered(db, env, other, xs, user, sub)
    ensures Covered(db.(ledger := Stamp(db.ledger, place, id)), env, other, xs, user, sub)
  {
    if sub != SubIdOf(env, id) {
      SumSame(db.ledger, place, db.ledger[place].(stamp := Some(id)), (g: Grant) => IsUnstamped(g, user, sub));
    } else if xs != [] {
      assert xs[0] in xs;
    }
  }

  lemma SetStampKeeps(w: World, env: Env, other: set<nat>, job: nat)
    requires Bounded(w, env, other) && HasJob(w, job) && w.jobs[job].Chosen?
    ensures Bounded(Next(w, env, SetStamp(job)), env, other)
  {
    var j := w.jobs[job];
    assert JobFits(w.db.ledger, env, other, j);
    if w.db.ledger[j.place].stamp == None {
      var ledger := Stamp(w.db.ledger, j.place, j.id);
      StampFits(w.db.ledger, env, other, j.id, j.place);
      forall x: nat ensures RowFits(w.db.(ledger := ledger), env, other, x) {
        assert RowFits(w.db, env, other, x);
        StampedAfter(w.db.ledger, j.place, j.id, x);
        RowStays(w.db, ledger, env, other, x);
      }
      forall xs: seq<nat>, user: nat, sub: nat ensures Covered(w.db.(ledger := ledger), env, other, xs, user, sub) {
        assert Covered(w.db, env, other, xs, user, sub);
        StampKeepsCover(w.db, env, other, j.id, j.place, xs, user, sub);
      }
      LedgerKeeps(w, env, other, ledger);
      OneJob(w.(db := w.db.(ledger := ledger)), env, other, job, Held(j.id, j.place));
    } else {
      OneJob(w, env, other, job, Planned(j.id));
    }
  }

  /** The jobs can live with more stamps. */
  lemma LedgerKeeps(w: World, env: Env, other: set<nat>, ledger: seq<Grant>)
    requires Bounded(w, env, other) && StampsKept(w.db.ledger, ledger) && StampsFit(ledger, env)
    requires forall x: nat :: RowFits(w.db.(ledger := ledger), env, other, x)
    requires forall xs: seq<nat>, user: nat, sub: nat :: Covered(w.db.(ledger := ledger), env, other, xs, user, sub)
    ensures Bounded(w.(db := w.db.(ledger := ledger)), env, other)
  {
    forall k | 0 <= k < |w.jobs| ensures JobFits(ledger, env, other, w.jobs[k]) {
      JobStays(w.db.ledger, ledger, env, other, w.jobs[k]);
    }
  }

  /** A write puts nothing in the row, or what a grant names the payment for. */
  lemma WriteKeepsRow(db: Db, env: Env, other: set<nat>, id: nat, ink: nat, sub: Option<nat>, x: nat)
    requires RowFits(db, env, other, x) && (ink > 0 ==> NamedFor(db.ledger, id, ink))
    ensures RowFits(Write(db, env, id, ink, sub), env, other, x)
    ensures x in other ==> PlanInk(Write(db, env, id, ink, sub).rows, x) == PlanInk(db.rows, x)
  {
  }

  lemma WriteKeeps(w: World, env: Env, other: set<nat>, id: nat, ink: nat, sub: Option<nat>, job: nat)
    requires Bounded(w, env, other) && HasJob(w, job) && (ink > 0 ==> NamedFor(w.db.ledger, id, ink))
    ensures Bounded(WithJob(w.(db := Write(w.db, env, id, ink, sub)), job, Idle), env, other)
  {
    var after := Write(w.db, env, id, ink, sub);
    forall x: nat
      ensures RowFits(after, env, other, x) && (x in other ==> PlanInk(after.rows, x) == PlanInk(w.db.rows, x))
    {
      assert RowFits(w.db, env, other, x);
      WriteKeepsRow(w.db, env, other, id, ink, sub, x);
    }
    forall xs: seq<nat>, user: nat, s: nat ensures Covered(after, env, other, xs, user, s) {
      assert Covered(w.db, env, other, xs, user, s);
      if forall x :: x in xs ==> x in other {
        SameInk(after.rows, w.db.rows, xs);
      }
    }
    OneJob(w.(db := after), env, other, job, Idle);
  }

  lemma GrantedAfter(ledger: seq<Grant>, g: Grant, x: nat)
    ensures IsStamped(ledger + [g], x) <==> IsStamped(ledger, x) || g.stamp == Some(x)
  {
    if i: nat :| StampedAt(ledger, i, x) {
      assert StampedAt(ledger + [g], i, x);
    }
    if g.stamp == Some(x) {
      assert StampedAt(ledger + [g], |ledger|, x);
    }
    if i: nat :| StampedAt(ledger + [g], i, x) {
      assert i < |ledger| ==> StampedAt(ledger, i, x);
    }
  }

  lemma GrantKeeps(w: World, env: Env, other: set<nat>, id: nat, delta: nat)
    requires Bounded(w, env, other) && delta > 0 && MayGrant(w.db, id)
    ensures Bounded(Next(w, env, NewGrant(id, delta)), env, other)
  {
    var g := Grant(UserOf(env, id), SubIdOf(env, id), delta, Some(id));
    var ledger := w.db.ledger + [g];
    forall i: nat, x: nat | StampedAt(ledger, i, x)
      ensures ledger[i].delta > 0 && ledger[i].user == UserOf(env, x) && ledger[i].sub == SubIdOf(env, x)
    {
      assert i < |w.db.ledger| ==> StampedAt(w.db.ledger, i, x);
    }
    forall x: nat ensures RowFits(w.db.(ledger := ledger), env, other, x) {
      assert RowFits(w.db, env, other, x);
      GrantedAfter(w.db.ledger, g, x);
      RowStays(w.db, ledger, env, other, x);
    }
    forall xs: seq<nat>, user: nat, sub: nat ensures Covered(w.db.(ledger := ledger), env, other, xs, user, sub) {
      assert Covered(w.db, env, other, xs, user, sub);
      SumAppend(w.db.ledger, g, (h: Grant) => IsUnstamped(h, user, sub));
    }
    LedgerKeeps(w, env, other, ledger);
  }

  lemma NextKeepsBounded(w: World, env: Env, other: set<nat>, a: Action)
    requires Bounded(w, env, other)
    ensures Bounded(Next(w, env, a), env, other)
  {
    if IsRead(a) {
      ReadKeeps(w, env, other, a);
    } else if a.SetStamp? && HasJob(w, a.job) && w.jobs[a.job].Chosen? {
      SetStampKeeps(w, env, other, a.job);
    } else if a.NewGrant? && a.delta > 0 && MayGrant(w.db, a.id) {
      GrantKeeps(w, env, other, a.id, a.delta);
    } else if a.Stop? && HasJob(w, a.job) {
      OneJob(w, env, other, a.job, Idle);
    } else if (a.Credit? || a.WriteZero? || a.WriteSure?) && HasJob(w, a.job) {
      WriteActionKeeps(w, env, other, a);
    }
  }

  lemma WriteActionKeeps(w: World, env: Env, other: set<nat>, a: Action)
    requires Bounded(w, env, other) && (a.Credit? || a.WriteZero? || a.WriteSure?) && HasJob(w, a.job)
    ensures Bounded(Next(w, env, a), env, other)
  {
    var j := w.jobs[a.job];
    assert JobFits(w.db.ledger, env, other, j);
    if a.Credit? && j.Held? {
      WriteKeeps(w, env, other, j.id, w.db.ledger[j.place].delta, a.sub, a.job);
    } else if a.WriteZero? && MayWriteZero(j) {
      WriteKeeps(w, env, other, j.id, 0, a.sub, a.job);
    } else if a.WriteSure? && j.Sure? {
      WriteKeeps(w, env, other, j.id, j.ink, a.sub, a.job);
    }
  }

  /** Whatever runs and the webhook do, in any order and cut off anywhere, the invariant stays. */
  lemma {:induction false} PlayKeepsBounded(w: World, env: Env, other: set<nat>, actions: seq<Action>)
    requires Bounded(w, env, other)
    ensures Bounded(Play(w, env, actions), env, other)
  {
    if actions != [] {
      var n := |actions| - 1;
      PlayKeepsBounded(w, env, other, actions[..n]);
      NextKeepsBounded(Play(w, env, actions[..n]), env, other, actions[n]);
    }
  }

  /**
   * Collections as they are before the first run: no grant carries a payment id, no run is under way,
   * and what the plan payments with Ink hold is covered by their subscription's grants.
   */
  ghost predicate IsStart(w: World, env: Env, other: set<nat>) {
    && (forall g :: g in w.db.ledger ==> g.stamp == None)
    && (forall k :: 0 <= k < |w.jobs| ==> w.jobs[k] == Idle)
    && (forall id: nat :: id in other <==> PlanInk(w.db.rows, id) > 0)
    && (forall id :: id in other ==> id in w.db.rows && w.db.rows[id].sub == Some(SubIdOf(env, id)))
    && (forall xs: seq<nat>, user: nat, sub: nat :: Covered(w.db, env, other, xs, user, sub))
  }

  lemma NothingStamped(ledger: seq<Grant>)
    requires forall g :: g in ledger ==> g.stamp == None
    ensures forall i: nat, id: nat :: !StampedAt(ledger, i, id)
  {
    forall i: nat, id: nat ensures !StampedAt(ledger, i, id) {
      assert i < |ledger| ==> ledger[i] in ledger;
    }
  }

  lemma StartIsBounded(w: World, env: Env, other: set<nat>)
    requires IsStart(w, env, other)
    ensures Bounded(w, env, other)
  {
    NothingStamped(w.db.ledger);
  }

  /** A stamp once set is never changed or taken off, and grants are otherwise only added. */
  lemma {:induction false} PlayKeepsStamps(w: World, env: Env, actions: seq<Action>)
    ensures StampsKept(w.db.ledger, Play(w, env, actions).db.ledger)
  {
    if actions != [] {
      PlayKeepsStamps(w, env, actions[..|actions| - 1]);
    }
  }

  // ----- credited Ink never exceeds granted Ink ----------------------------------------------------------

  predicate NamesOne(g: Grant, ids: seq<nat>) {
    g.stamp.Some? && g.stamp.value in ids
  }

  lemma {:induction false} CreditedWithinNamed(w: World, env: Env, other: set<nat>, ids: seq<nat>)
    requires Bounded(w, env, other) && Unrepeated(ids) && forall id :: id in ids ==> id !in other
    ensures CreditedInk(w.db.rows, ids) <= DeltaSum(w.db.ledger, (g: Grant) => NamesOne(g, ids))
  {
    if ids != [] {
      var n := |ids| - 1;
      var id := ids[n];
      assert ids == ids[..n] + [id];
      CreditedWithinNamed(w, env, other, ids[..n]);
      SumSplits(w.db.ledger, (g: Grant) => NamesOne(g, ids[..n]), (g: Grant) => g.stamp == Some(id),
                (g: Grant) => NamesOne(g, ids));
      assert RowFits(w.db, env, other, id);
      if PlanInk(w.db.rows, id) > 0 {
        var i: nat :| StampedAt(w.db.ledger, i, id) && w.db.ledger[i].delta == PlanInk(w.db.rows, id);
        SumAtLeast(w.db.ledger, (g: Grant) => g.stamp == Some(id), i);
      }
    }
  }

  /** The listed payments that are in `other`, or the rest. */
  function Among(ids: seq<nat>, other: set<nat>, inside: bool): (r: seq<nat>)
    ensures forall id :: id in r <==> id in ids && ((id in other) == inside)
    ensures Unrepeated(ids) ==> Unrepeated(r)
  {
    if ids == [] then []
    else
      var id := ids[|ids| - 1];
      assert ids == ids[..|ids| - 1] + [id];
      assert Unrepeated(ids) ==> id !in ids[..|ids| - 1];
      Among(ids[..|ids| - 1], other, inside) + (if (id in other) == inside then [id] else [])
  }

  lemma CreditedAppend(rows: map<nat, Row>, ids: seq<nat>, id: nat)
    ensures CreditedInk(rows, ids + [id]) == CreditedInk(rows, ids) + PlanInk(rows, id)
  {
  }

  lemma {:induction false} CreditedSplits(rows: map<nat, Row>, ids: seq<nat>, other: set<nat>)
    ensures CreditedInk(rows, ids) == CreditedInk(rows, Among(ids, other, true))
        + CreditedInk(rows, Among(ids, other, false))
  {
    if ids != [] {
      var n := |ids| - 1;
      CreditedSplits(rows, ids[..n], other);
      CreditedAppend(rows, Among(ids[..n], other, ids[n] in other), ids[n]);
      assert Among(ids, other, ids[n] in other) == Among(ids[..n], other, ids[n] in other) + [ids[n]];
      assert Among(ids, other, ids[n] !in other) == Among(ids[..n], other, ids[n] !in other);
    }
  }

  /** Grants that name one of the subscription's payments, and its unstamped ones, are among its grants. */
  lemma NamedAndUnstamped(ledger: seq<Grant>, env: Env, ids: seq<nat>, user: nat, sub: nat)
    requires StampsFit(ledger, env) && forall id :: id in ids ==> env.own(id) == (user, sub)
    ensures UnstampedSum(ledger, user, sub) + DeltaSum(ledger, (g: Grant) => NamesOne(g, ids))
         <= Granted(ledger, user, sub)
  {
    forall g | g in ledger && NamesOne(g, ids) ensures g.user == user && g.sub == sub {
      var i: nat :| i < |ledger| && ledger[i] == g;
      assert StampedAt(ledger, i, g.stamp.value);
    }
    SumSplits(ledger, (g: Grant) => IsUnstamped(g, user, sub), (g: Grant) => NamesOne(g, ids),
              (g: Grant) => g.user == user && g.sub == sub);
  }

  lemma BeforeIsCovered(w: World, env: Env, other: set<nat>, ids: seq<nat>, user: nat, sub: nat)
    requires Bounded(w, env, other) && Unrepeated(ids) && forall id :: id in ids ==> env.own(id) == (user, sub)
    ensures CreditedInk(w.db.rows, Among(ids, other, true)) <= UnstampedSum(w.db.ledger, user, sub)
  {
    assert Covered(w.db, env, other, Among(ids, other, true), user, sub);
  }

  /**
   * The plan payments of a subscription, attributed, confirmed or recorded before, together hold no
   * more Ink than the subscription was granted.
   */
  lemma CreditedWithinGranted(w: World, env: Env, other: set<nat>, ids: seq<nat>, user: nat, sub: nat)
    requires Bounded(w, env, other) && Unrepeated(ids) && forall id :: id in ids ==> env.own(id) == (user, sub)
    ensures CreditedInk(w.db.rows, ids) <= Granted(w.db.ledger, user, sub)
  {
    CreditedSplits(w.db.rows, ids, other);
    BeforeIsCovered(w, env, other, ids, user, sub);
    CreditedWithinNamed(w, env, other, Among(ids, other, false));
    NamedAndUnstamped(w.db.ledger, env, Among(ids, other, false), user, sub);
  }

  lemma PlayOne(w: World, env: Env, a: Action)
    ensures Play(w, env, [a]) == Next(w, env, a)
  {
    assert [a][..0] == [];
  }

  lemma PlayMore(w: World, env: Env, actions: seq<Action>, a: Action)
    ensures Play(w, env, actions + [a]) == Next(Play(w, env, actions), env, a)
  {
    assert (actions + [a])[..|actions|] == actions;
  }
}
