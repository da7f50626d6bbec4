/**
 * When no payment is named by two grants, in overlapping and interrupted runs of the payments backfill
 * beside the webhook, and what a rerun makes of a run that stopped between the stamp and the row
 * (apps/billing/scripts/backfill-payments.ts).
 */
module PaymentStamps {
  import opened Options
  import opened PaymentCredits
  import opened PaymentsBackfill
  import opened PaymentsDryRun

  // ----- the invariant ----------------------------------------------------------------------------------

  /** No payment is named twice. */
  ghost predicate NamedOnce(ledger: seq<Grant>) {
    forall i: nat, j: nat, id: nat :: StampedAt(ledger, i, id) && StampedAt(ledger, j, id) ==> i == j
  }

  /** No grant of the payment's subscription is unstamped, but for the one at `place`. */
  ghost predicate OnlyUnstamped(ledger: seq<Grant>, env: Env, id: nat, place: Option<nat>) {
    forall i: nat :: i < |ledger| && IsUnstamped(ledger[i], UserOf(env, id), SubIdOf(env, id)) ==> place == Some(i)
  }

  /** The payment's subscription has no unstamped grant left. */
  ghost predicate Exhausted(ledger: seq<Grant>, env: Env, id: nat) {
    OnlyUnstamped(ledger, env, id, None)
  }

  /** It has none, or more invoices than one: either way pass 2 gives the payment nothing. */
  ghost predicate NothingToTake(w: World, env: Env, id: nat) {
    Exhausted(w.db.ledger, env, id) || w.invoices(SubIdOf(env, id)) > 1
  }

  ghost predicate NamedHasNothing(w: World, env: Env, id: nat) {
    IsStamped(w.db.ledger, id) ==> NothingToTake(w, env, id)
  }

  /** A payment that a grant names has nothing to take, or does not look as if it had no Ink. */
  ghost predicate InkShown(w: World, env: Env, id: nat) {
    RowLacksInk(w.db, id) ==> NamedHasNothing(w, env, id)
  }

  ghost predicate OnceFits(w: World, env: Env, j: Job) {
    match j
    case Idle => true
    case Unrecorded(_) => true
    case Sure(_, _) => true
    case Planned(id) => NamedHasNothing(w, env, id)
    case Seen(id, place) => NamedHasNothing(w, env, id) && OnlyUnstamped(w.db.ledger, env, id, Some(place))
    case Clear(id, place) => NamedHasNothing(w, env, id) && OnlyUnstamped(w.db.ledger, env, id, Some(place))
    case Known(id, place, _) => NamedHasNothing(w, env, id) && OnlyUnstamped(w.db.ledger, env, id, Some(place))
    case Chosen(id, place) =>
      && OnlyUnstamped(w.db.ledger, env, id, Some(place))
      && (IsFree(w.db.ledger, place) ==> !IsStamped(w.db.ledger, id))
    case Held(id, place) => Exhausted(w.db.ledger, env, id)
  }

  predicate IsFree(ledger: seq<Grant>, place: nat) {
    place < |ledger| && ledger[place].stamp == None
  }

  /** What every action keeps but a webhook's grant that comes at the wrong time. */
  ghost predicate Once(w: World, env: Env) {
    && NamedOnce(w.db.ledger)
    && (forall id: nat :: InkShown(w, env, id))
    && (forall k :: 0 <= k < |w.jobs| ==> OnceFits(w, env, w.jobs[k]))
  }

  ghost predicate Safe(w: World, env: Env, other: set<nat>) {
    Bounded(w, env, other) && Once(w, env)
  }

  // ----- what the reads tell ------------------------------------------------------------------------------------

  lemma {:induction false} WhereNone(ledger: seq<Grant>, p: Grant -> bool)
    requires forall j :: 0 <= j < |ledger| ==> !p(ledger[j])
    ensures Where(ledger, p) == []
  {
    if ledger != [] {
      WhereNone(ledger[..|ledger| - 1], p);
    }
  }

  lemma {:induction false} WhereOne(ledger: seq<Grant>, p: Grant -> bool, i: nat)
    requires i < |ledger| && p(ledger[i]) && forall j :: 0 <= j < |ledger| && p(ledger[j]) ==> j == i
    ensures Where(ledger, p) == [i]
  {
    var n := |ledger| - 1;
    if i < n {
      WhereOne(ledger[..n], p, i);
    } else {
      WhereNone(ledger[..n], p);
    }
  }

  /** What the ledger confirms is the delta of the payment's grant, if one names it. */
  lemma ConfirmedIsDelta(ledger: seq<Grant>, env: Env, id: nat, i: nat)
    requires StampsFit(ledger, env) && NamedOnce(ledger) && StampedAt(ledger, i, id)
    ensures Confirmed(ledger, UserOf(env, id), id) == ledger[i].delta > 0
  {
    forall j | 0 <= j < |ledger| && ledger[j].user == UserOf(env, id) && ledger[j].stamp == Some(id) ensures j == i {
      assert StampedAt(ledger, j, id);
    }
    WhereOne(ledger, (g: Grant) => g.user == UserOf(env, id) && g.stamp == Some(id), i);
  }

  lemma ReadLedgerFits(w: World, env: Env, id: nat)
    requires StampsFit(w.db.ledger, env) && NamedOnce(w.db.ledger) && Confirmed(w.db.ledger, UserOf(env, id), id) == 0
    ensures !IsStamped(w.db.ledger, id)
  {
    if i: nat :| StampedAt(w.db.ledger, i, id) {
      ConfirmedIsDelta(w.db.ledger, env, id, i);
    }
  }

  lemma OnePlace(db: Db, env: Env, id: nat)
    requires |GrantsOf(db, env, id)| == 1
    ensures OnlyUnstamped(db.ledger, env, id, Some(GrantsOf(db, env, id)[0]))
  {
    var places := GrantsOf(db, env, id);
    forall i: nat | i < |db.ledger| && IsUnstamped(db.ledger[i], UserOf(env, id), SubIdOf(env, id))
        ensures i == places[0] {
      assert i in places;
    }
  }

  /** What a run has read is what the invariant asks of its job. */
  lemma ReadFitsOnce(w: World, env: Env, other: set<nat>, a: Action)
    requires Safe(w, env, other) && IsRead(a) && HasJob(w, a.job)
    ensures var v := AfterRead(w, env, a);
      v == w || (v == WithJob(w, a.job, v.jobs[a.job]) && OnceFits(w, env, v.jobs[a.job]))
  {
    var j := w.jobs[a.job];
    assert OnceFits(w, env, j) && JobFits(w.db.ledger, env, other, j);
    match a
    case ReadRow(job, id) => assert InkShown(w, env, id);
    case ReadLedger(job) =>
      if j.Unrecorded? && Confirmed(w.db.ledger, UserOf(env, j.id), j.id) == 0 {
        ReadLedgerFits(w, env, j.id);
      }
    case ReadGrants(job) =>
      if j.Planned? && |GrantsOf(w.db, env, j.id)| == 1 {
        OnePlace(w.db, env, j.id);
      }
    case CheckInked(job) =>
    case ReadSettled(job) =>
    case CountCharges(job, plans) =>
      if j.Known? && w.invoices(SubIdOf(env, j.id)) <= 1 && IsFree(w.db.ledger, j.place) {
        assert IsUnstamped(w.db.ledger[j.place], UserOf(env, j.id), SubIdOf(env, j.id));
      }
    case _ =>
  }

  lemma OneJobOnce(w: World, env: Env, job: nat, j: Job)
    requires Once(w, env) && HasJob(w, job) && OnceFits(w, env, j)
    ensures Once(WithJob(w, job, j), env)
  {
    var v := WithJob(w, job, j);
    forall id: nat ensures InkShown(v, env, id) {
      assert InkShown(w, env, id);
    }
    forall k | 0 <= k < |v.jobs| ensures OnceFits(v, env, v.jobs[k]) {
      assert OnceFits(w, env, v.jobs[k]);
    }
  }

  lemma ReadKeepsOnce(w: World, env: Env, other: set<nat>, a: Action)
    requires Safe(w, env, other) && IsRead(a)
    ensures Once(Next(w, env, a), env)
  {
    if HasJob(w, a.job) {
      ReadFitsOnce(w, env, other, a);
      var v := AfterRead(w, env, a);
      if v != w {
        OneJobOnce(w, env, a.job, v.jobs[a.job]);
      }
    }
  }

  // ----- stamps and writes ----------------------------------------------------------------------------------

  /** A grant that a job is free to stamp is the last of its subscription. */
  lemma StampExhausts(w: World, env: Env, id: nat, place: nat)
    requires IsFree(w.db.ledger, place) && OnceFits(w, env, Chosen(id, place)) && NamedOnce(w.db.ledger)
    ensures var after := Stamp(w.db.ledger, place, id);
      Exhausted(after, env, id) && NamedOnce(after)
  {
    var after := Stamp(w.db.ledger, place, id);
    forall i: nat, j: nat, x: nat | StampedAt(after, i, x) && StampedAt(after, j, x) ensures i == j {
      assert i != place ==> StampedAt(w.db.ledger, i, x);
      assert j != place ==> StampedAt(w.db.ledger, j, x);
    }
  }

  /** What held of a payment before the stamp holds after it. */
  lemma StampKeepsNamed(w: World, env: Env, id: nat, place: nat, x: nat)
    requires IsFree(w.db.ledger, place) && OnceFits(w, env, Chosen(id, place)) && NamedOnce(w.db.ledger)
    requires NamedHasNothing(w, env, x)
    ensures NamedHasNothing(w.(db := w.db.(ledger := Stamp(w.db.ledger, place, id))), env, x)
  {
    StampExhausts(w, env, id, place);
    StampedAfter(w.db.ledger, place, id, x);
  }

  lemma StampKeepsJob(w: World, env: Env, id: nat, place: nat, j: Job)
    requires IsFree(w.db.ledger, place) && OnceFits(w, env, Chosen(id, place)) && NamedOnce(w.db.ledger)
    requires OnceFits(w, env, j) && PlaceOf(w, env, id, place)
    ensures OnceFits(w.(db := w.db.(ledger := Stamp(w.db.ledger, place, id))), env, j)
  {
    if !j.Idle? && !j.Unrecorded? && !j.Sure? {
      StampedAfter(w.db.ledger, place, id, j.id);
      if !j.Chosen? && !j.Held? {
        StampKeepsNamed(w, env, id, place, j.id);
      }
    }
  }

  predicate PlaceOf(w: World, env: Env, id: nat, place: nat) {
    IsFree(w.db.ledger, place) ==> IsUnstamped(w.db.ledger[place], UserOf(env, id), SubIdOf(env, id))
  }

  lemma SetStampKeepsOnce(w: World, env: Env, other: set<nat>, job: nat)
    requires Safe(w, env, other) && HasJob(w, job) && w.jobs[job].Chosen?
    ensures Once(Next(w, env, SetStamp(job)), env)
  {
    var j := w.jobs[job];
    assert OnceFits(w, env, j) && JobFits(w.db.ledger, env, other, j);
    if IsFree(w.db.ledger, j.place) {
      var v := w.(db := w.db.(ledger := Stamp(w.db.ledger, j.place, j.id)));
      StampExhausts(w, env, j.id, j.place);
      forall x: nat ensures InkShown(v, env, x) {
        assert InkShown(w, env, x);
        if RowLacksInk(w.db, x) {
          StampKeepsNamed(w, env, j.id, j.place, x);
        }
      }
      forall k | 0 <= k < |w.jobs| ensures OnceFits(v, env, w.jobs[k]) {
        StampKeepsJob(w, env, j.id, j.place, w.jobs[k]);
      }
      OneJobOnce(v, env, job, Held(j.id, j.place));
    } else {
      OneJobOnce(w, env, job, Planned(j.id));
    }
  }

  /** A payment that a job may write without Ink has nothing to take, if a grant names it. */
  lemma ZeroIsRight(w: World, env: Env, j: Job)
    requires OnceFits(w, env, j) && MayWriteZero(j)
    requires j.Chosen? ==> j.place < |w.db.ledger|
    ensures NamedHasNothing(w, env, j.id)
  {
  }

  lemma WriteKeepsOnce(w: World, env: Env, id: nat, ink: nat, sub: Option<nat>, job: nat)
    requires Once(w, env) && HasJob(w, job) && (ink == 0 ==> NamedHasNothing(w, env, id))
    ensures Once(WithJob(w.(db := Write(w.db, env, id, ink, sub)), job, Idle), env)
  {
    var v := w.(db := Write(w.db, env, id, ink, sub));
    forall x: nat ensures InkShown(v, env, x) {
      assert InkShown(w, env, x);
    }
    forall k | 0 <= k < |w.jobs| ensures OnceFits(v, env, w.jobs[k]) {
      assert OnceFits(w, env, w.jobs[k]);
    }
    OneJobOnce(v, env, job, Idle);
  }

  lemma WriteActionKeepsOnce(w: World, env: Env, other: set<nat>, a: Action)
    requires Safe(w, env, other) && (a.Credit? || a.WriteZero? || a.WriteSure?) && HasJob(w, a.job)
    ensures Once(Next(w, env, a), env)
  {
    var j := w.jobs[a.job];
    assert OnceFits(w, env, j) && JobFits(w.db.ledger, env, other, j);
    if a.Credit? && j.Held? {
      WriteKeepsOnce(w, env, j.id, w.db.ledger[j.place].delta, a.sub, a.job);
    } else if a.WriteZero? && MayWriteZero(j) {
      ZeroIsRight(w, env, j);
      WriteKeepsOnce(w, env, j.id, 0, a.sub, a.job);
    } else if a.WriteSure? && j.Sure? {
      WriteKeepsOnce(w, env, j.id, j.ink, a.sub, a.job);
    }
  }

  // ----- the webhook's grants ---------------------------------------------------------------------------------

  /** A run has chosen an old grant for the payment, and has not stamped it yet. */
  ghost predicate Races(w: World, id: nat) {
    exists k: nat :: RacesAt(w, k, id)
  }

  predicate RacesAt(w: World, k: nat, id: nat) {
    HasJob(w, k) && w.jobs[k].Chosen? && w.jobs[k].id == id && IsFree(w.db.ledger, w.jobs[k].place)
  }

  predicate IsLooking(j: Job, id: nat) {
    (j.Planned? || j.Seen? || j.Clear? || j.Known?) && j.id == id
  }

  /** The payment's row shows no Ink, or a run has seen none and has not chosen a grant yet. */
  ghost predicate LooksForInk(w: World, id: nat) {
    RowLacksInk(w.db, id) || exists k: nat :: HasJob(w, k) && IsLooking(w.jobs[k], id)
  }

  /** A grant that comes at the right time. */
  ghost predicate IsTimely(w: World, env: Env, id: nat) {
    && !IsStamped(w.db.ledger, id) && !Races(w, id)
    && (LooksForInk(w, id) ==> NothingToTake(w, env, id))
  }

  ghost function WithGrant(w: World, env: Env, id: nat, delta: nat): World {
    w.(db := w.db.(ledger := w.db.ledger + [Grant(UserOf(env, id), SubIdOf(env, id), delta, Some(id))]))
  }

  /** A grant that names its payment leaves what is unstamped as it was. */
  lemma GrantKeepsUnstamped(w: World, env: Env, id: nat, delta: nat, x: nat, place: Option<nat>)
    ensures OnlyUnstamped(WithGrant(w, env, id, delta).db.ledger, env, x, place)
       <==> OnlyUnstamped(w.db.ledger, env, x, place)
  {
    var ledger := WithGrant(w, env, id, delta).db.ledger;
    forall i: nat | i < |w.db.ledger| ensures ledger[i] == w.db.ledger[i] {
    }
  }

  /** Only what is said of the payment itself changes. */
  lemma GrantKeepsNamed(w: World, env: Env, id: nat, delta: nat, x: nat)
    ensures NamedHasNothing(WithGrant(w, env, id, delta), env, x)
       <==> if x == id then NothingToTake(w, env, id) else NamedHasNothing(w, env, x)
  {
    GrantKeepsUnstamped(w, env, id, delta, x, None);
    GrantedAfter(w.db.ledger, Grant(UserOf(env, id), SubIdOf(env, id), delta, Some(id)), x);
  }

  lemma GrantKeepsJob(w: World, env: Env, id: nat, delta: nat, j: Job)
    requires OnceFits(w, env, j) && (j.Chosen? ==> j.place < |w.db.ledger|)
    ensures OnceFits(WithGrant(w, env, id, delta), env, j)
       <==> (IsLooking(j, id) ==> NothingToTake(w, env, id))
            && !(j.Chosen? && j.id == id && IsFree(w.db.ledger, j.place))
  {
    if !j.Idle? && !j.Unrecorded? && !j.Sure? {
      GrantKeepsNamed(w, env, id, delta, j.id);
      GrantKeepsUnstamped(w, env, id, delta, j.id, None);
      GrantedAfter(w.db.ledger, Grant(UserOf(env, id), SubIdOf(env, id), delta, Some(id)), j.id);
      if !j.Planned? && !j.Held? {
        GrantKeepsUnstamped(w, env, id, delta, j.id, Some(j.place));
      }
    }
  }

  lemma GrantNamesOnce(w: World, env: Env, id: nat, delta: nat)
    requires NamedOnce(w.db.ledger)
    ensures NamedOnce(WithGrant(w, env, id, delta).db.ledger) <==> !IsStamped(w.db.ledger, id)
  {
    var n, ledger := |w.db.ledger|, WithGrant(w, env, id, delta).db.ledger;
    assert StampedAt(ledger, n, id);
    if i: nat :| StampedAt(w.db.ledger, i, id) {
      assert StampedAt(ledger, i, id);
    } else {
      forall i: nat, j: nat, x: nat | StampedAt(ledger, i, x) && StampedAt(ledger, j, x) ensures i == j {
        assert i < n ==> StampedAt(w.db.ledger, i, x);
        assert j < n ==> StampedAt(w.db.ledger, j, x);
      }
    }
  }

  /** The invariant survives a webhook's grant exactly when the grant is timely. */
  lemma GrantSurvivesIff(w: World, env: Env, other: set<nat>, id: nat, delta: nat)
    requires Safe(w, env, other) && delta > 0 && MayGrant(w.db, id)
    ensures Once(Next(w, env, NewGrant(id, delta)), env) <==> IsTimely(w, env, id)
  {
    var v := WithGrant(w, env, id, delta);
    GrantNamesOnce(w, env, id, delta);
    forall x: nat
      ensures InkShown(v, env, x) <==> (x == id && RowLacksInk(w.db, id) ==> NothingToTake(w, env, id))
    {
      assert InkShown(w, env, x);
      GrantKeepsNamed(w, env, id, delta, x);
    }
    forall k | 0 <= k < |w.jobs|
      ensures OnceFits(v, env, w.jobs[k])
         <==> (IsLooking(w.jobs[k], id) ==> NothingToTake(w, env, id)) && !RacesAt(w, k, id)
    {
      assert OnceFits(w, env, w.jobs[k]) && JobFits(w.db.ledger, env, other, w.jobs[k]);
      GrantKeepsJob(w, env, id, delta, w.jobs[k]);
    }
    TimelyIff(w, env, id, v);
  }

  lemma TimelyIff(w: World, env: Env, id: nat, v: World)
    requires v.jobs == w.jobs && (NamedOnce(v.db.ledger) <==> !IsStamped(w.db.ledger, id))
    requires forall x: nat :: InkShown(v, env, x) <==> (x == id && RowLacksInk(w.db, id) ==> NothingToTake(w, env, id))
    requires forall k :: 0 <= k < |w.jobs| ==> (OnceFits(v, env, w.jobs[k])
               <==> (IsLooking(w.jobs[k], id) ==> NothingToTake(w, env, id)) && !RacesAt(w, k, id))
    ensures Once(v, env) <==> IsTimely(w, env, id)
  {
    if Once(v, env) {
      assert InkShown(v, env, id);
      forall k: nat | HasJob(w, k)
        ensures !RacesAt(w, k, id) && (IsLooking(w.jobs[k], id) ==> NothingToTake(w, env, id))
      {
        assert OnceFits(v, env, w.jobs[k]);
      }
    }
    if IsTimely(w, env, id) {
      forall k | 0 <= k < |w.jobs| ensures OnceFits(v, env, w.jobs[k]) {
        assert HasJob(w, k) && !RacesAt(w, k, id);
      }
    }
  }

  /** A grant that comes while a run has chosen an old one for the payment: the run's stamp names it twice. */
  lemma RaceNamesTwice(w: World, env: Env, job: nat, id: nat, delta: nat)
    requires RacesAt(w, job, id) && delta > 0 && MayGrant(w.db, id)
    ensures !NamedOnce(Next(Next(w, env, NewGrant(id, delta)), env, SetStamp(job)).db.ledger)
  {
    var after := Next(Next(w, env, NewGrant(id, delta)), env, SetStamp(job)).db.ledger;
    assert StampedAt(after, |w.db.ledger|, id) && StampedAt(after, w.jobs[job].place, id);
  }

  // ----- every history ------------------------------------------------------------------------------------------

  /** Every grant of the webhook that is made comes at the right time. */
  ghost predicate Orderly(w: World, env: Env, actions: seq<Action>) {
    actions == [] || (
      var n := |actions| - 1;
      var v := Play(w, env, actions[..n]);
      Orderly(w, env, actions[..n])
      && (actions[n].NewGrant? && actions[n].delta > 0 && MayGrant(v.db, actions[n].id)
          ==> IsTimely(v, env, actions[n].id)))
  }

  lemma ChargeKeepsOnce(w: World, env: Env, charged: nat)
    requires Once(w, env)
    ensures Once(Next(w, env, Charge(charged)), env)
  {
    var v := Next(w, env, Charge(charged));
    forall x: nat ensures InkShown(v, env, x) {
      assert InkShown(w, env, x);
    }
    forall k | 0 <= k < |w.jobs| ensures OnceFits(v, env, w.jobs[k]) {
      assert OnceFits(w, env, w.jobs[k]);
    }
  }

  lemma NextKeepsOnce(w: World, env: Env, other: set<nat>, a: Action)
    requires Safe(w, env, other)
    requires a.NewGrant? && a.delta > 0 && MayGrant(w.db, a.id) ==> IsTimely(w, env, a.id)
    ensures Once(Next(w, env, a), env)
  {
    if IsRead(a) {
      ReadKeepsOnce(w, env, other, a);
    } else if a.SetStamp? && HasJob(w, a.job) && w.jobs[a.job].Chosen? {
      SetStampKeepsOnce(w, env, other, a.job);
    } else if a.NewGrant? && a.delta > 0 && MayGrant(w.db, a.id) {
      GrantSurvivesIff(w, env, other, a.id, a.delta);
    } else if a.Charge? {
      ChargeKeepsOnce(w, env, a.charged);
    } else if a.Stop? && HasJob(w, a.job) {
      OneJobOnce(w, env, a.job, Idle);
    } else if (a.Credit? || a.WriteZero? || a.WriteSure?) && HasJob(w, a.job) {
      WriteActionKeepsOnce(w, env, other, a);
    }
  }

  /** Runs that overlap and stop anywhere name no payment twice, as long as the webhook's grants are timely. */
  lemma {:induction false} PlayKeepsSafe(w: World, env: Env, other: set<nat>, actions: seq<Action>)
    requires Safe(w, env, other) && Orderly(w, env, actions)
    ensures Safe(Play(w, env, actions), env, other)
  {
    if actions != [] {
      var n := |actions| - 1;
      PlayKeepsSafe(w, env, other, actions[..n]);
      NextKeepsBounded(Play(w, env, actions[..n]), env, other, actions[n]);
      NextKeepsOnce(Play(w, env, actions[..n]), env, other, actions[n]);
    }
  }

  lemma StartIsSafe(w: World, env: Env, other: set<nat>)
    requires IsStart(w, env, other)
    ensures Safe(w, env, other)
  {
    StartIsBounded(w, env, other);
    NothingStamped(w.db.ledger);
  }

  /** Runs alone are always orderly. */
  lemma {:induction false} RunsAreOrderly(w: World, env: Env, actions: seq<Action>)
    requires forall a :: a in actions ==> !a.NewGrant?
    ensures Orderly(w, env, actions)
  {
    if actions != [] {
      var n := |actions| - 1;
      assert actions[n] in actions && forall a :: a in actions[..n] ==> a in actions;
      RunsAreOrderly(w, env, actions[..n]);
    }
  }

  // ----- the run's own steps are such actions --------------------------------------------------------------

  /** What pass 2 leaves in the collections for a payment without Ink in its row. */
  lemma StepDb(run: Run, st: State, p: Entity, ctx: Context)
    requires run.apply && p.id.Some? && p.amountOk && run.fault(p.id.value) == Fine
    requires p.id.value in run.plans.resolved && run.plans.resolved[p.id.value].0 == Some(ctx)
    requires p.id.value in st.db.rows ==> st.db.rows[p.id.value].ink == 0
    ensures var g := Found(run, st.db, p.id.value, ctx);
      Step(run, st, p).db == if g.None? then Db(Upsert(st.db.rows, p.id.value, ctx), st.db.ledger)
                             else Db(Upsert(st.db.rows, p.id.value, ctx.(ink := st.db.ledger[g.value].delta)),
                                     Stamp(st.db.ledger, g.value, p.id.value))
  {
  }

  /** The grant that pass 2 finds for the payment, behind all its guards. */
  function PlaceFor(w: World, env: Env, id: nat, plans: Plans): Option<nat> {
    GrantFor(w.db, UserOf(env, id), Some(SubIdOf(env, id)), plans, w.invoices)
  }

  /** The four reads of pass 2. */
  function Guards(job: nat, plans: Plans): seq<Action> {
    [ReadGrants(job)] + [CheckInked(job)] + [ReadSettled(job)] + [CountCharges(job, plans)]
  }

  /** What the guards ask is what the four reads ask. */
  lemma GuardsAre(w: World, env: Env, id: nat, plans: Plans)
    requires PlaceFor(w, env, id, plans).Some?
    ensures var places, sub := GrantsOf(w.db, env, id), SubIdOf(env, id);
      && |places| == 1 && PlaceFor(w, env, id, plans) == Some(places[0]) && w.db.ledger[places[0]].delta > 0
      && !Inked(w.db.rows, sub)
      && ChargesOf(IdsOf(plans, sub), SettledIds(w.db.rows, sub), w.invoices(sub)) == 1
  {
  }

  lemma GuardsChoose(w: World, env: Env, job: nat, plans: Plans)
    requires HasJob(w, job) && w.jobs[job].Planned? && PlaceFor(w, env, w.jobs[job].id, plans).Some?
    ensures var id := w.jobs[job].id;
      Play(w, env, Guards(job, plans)) == WithJob(w, job, Chosen(id, PlaceFor(w, env, id, plans).value))
  {
    var id, place := w.jobs[job].id, PlaceFor(w, env, w.jobs[job].id, plans).value;
    var ids := SettledIds(w.db.rows, SubIdOf(env, id));
    GuardsAre(w, env, id, plans);
    var one := [ReadGrants(job)];
    var two := one + [CheckInked(job)];
    var three := two + [ReadSettled(job)];
    PlayOne(w, env, ReadGrants(job));
    assert Play(w, env, one) == WithJob(w, job, Seen(id, place));
    PlayMore(w, env, one, CheckInked(job));
    assert Play(w, env, two) == WithJob(w, job, Clear(id, place));
    PlayMore(w, env, two, ReadSettled(job));
    assert Play(w, env, three) == WithJob(w, job, Known(id, place, ids));
    PlayMore(w, env, three, CountCharges(job, plans));
  }

  /** The actions of pass 2 for one payment: it finds its grant, or it does not. */
  function ActionsOf(found: bool, job: nat, plans: Plans, sub: Option<nat>): seq<Action> {
    if found then Guards(job, plans) + [SetStamp(job)] + [Credit(job, sub)] else [WriteZero(job, sub)]
  }

  lemma GuardsAndStamp(w: World, env: Env, job: nat, plans: Plans)
    requires HasJob(w, job) && w.jobs[job].Planned? && PlaceFor(w, env, w.jobs[job].id, plans).Some?
    ensures var id, g := w.jobs[job].id, PlaceFor(w, env, w.jobs[job].id, plans).value;
      Play(w, env, Guards(job, plans) + [SetStamp(job)])
      == WithJob(w.(db := w.db.(ledger := Stamp(w.db.ledger, g, id))), job, Held(id, g))
  {
    var id, g := w.jobs[job].id, PlaceFor(w, env, w.jobs[job].id, plans).value;
    GuardsChoose(w, env, job, plans);
    PlayMore(w, env, Guards(job, plans), SetStamp(job));
    assert w.jobs[job := Chosen(id, g)][job := Held(id, g)] == w.jobs[job := Held(id, g)];
  }

  /** Pass 2 for a plan payment that pass 1 saw without Ink, when nothing else happens meanwhile. */
  lemma StepIsPlayed(run: Run, st: State, env: Env, p: Entity, ctx: Context, jobs: seq<Job>, job: nat)
    requires run.apply && p.id.Some? && p.amountOk && run.fault(p.id.value) == Fine
    requires p.id.value in run.plans.resolved
          && run.plans.resolved[p.id.value] == (Some(ctx), Some(SubIdOf(env, p.id.value)))
    requires NeedsGrant(ctx) && ctx.user == UserOf(env, p.id.value)
    requires p.id.value in st.db.rows ==> st.db.rows[p.id.value].ink == 0
    requires job < |jobs| && jobs[job] == Planned(p.id.value)
    ensures var found := Found(run, st.db, p.id.value, ctx).Some?;
      Play(World(st.db, run.invoices, jobs), env, ActionsOf(found, job, run.plans, ctx.sub)).db == Step(run, st, p).db
  {
    var w, id := World(st.db, run.invoices, jobs), p.id.value;
    StepDb(run, st, p, ctx);
    FoundIsPlace(run, w, env, id, ctx);
    if Found(run, st.db, id, ctx).None? {
      PlayOne(w, env, WriteZero(job, ctx.sub));
    } else {
      CreditedAfterGuards(w, env, job, run.plans, ctx.sub);
    }
  }

  lemma FoundIsPlace(run: Run, w: World, env: Env, id: nat, ctx: Context)
    requires id in run.plans.resolved && run.plans.resolved[id] == (Some(ctx), Some(SubIdOf(env, id)))
    requires NeedsGrant(ctx) && ctx.user == UserOf(env, id) && w.invoices == run.invoices && run.fault(id) == Fine
    ensures PlaceFor(w, env, id, run.plans) == Found(run, w.db, id, ctx)
  {
  }

  lemma CreditedAfterGuards(w: World, env: Env, job: nat, plans: Plans, sub: Option<nat>)
    requires HasJob(w, job) && w.jobs[job].Planned? && PlaceFor(w, env, w.jobs[job].id, plans).Some?
    ensures var id, g := w.jobs[job].id, PlaceFor(w, env, w.jobs[job].id, plans).value;
      Play(w, env, ActionsOf(true, job, plans, sub)).db
      == Write(w.db.(ledger := Stamp(w.db.ledger, g, id)), env, id, w.db.ledger[g].delta, sub)
  {
    GuardsAndStamp(w, env, job, plans);
    PlayMore(w, env, Guards(job, plans) + [SetStamp(job)], Credit(job, sub));
  }

  // ----- a run that stopped between the stamp and the row ----------------------------------------------------

  /** The payment's entity as Razorpay gives it: a charge of its own subscription. */
  predicate IsChargeOf(p: Entity, id: nat, user: nat, sub: nat) {
    && p.id == Some(id) && p.amountOk && p.origin == FromSubscription(user, sub)
    && (p.subId == None || p.subId == Some(sub))
  }

  lemma BackfillOfOne(db: Db, p: Entity, invoices: nat -> nat, fault: nat -> Fault)
    ensures Backfilled(db, [p], true, invoices, fault)
         == Step(RunOf(true, db, [p], invoices, fault), State(db, NOTHING), p)
    ensures Knows(PlanAll([p], db), p, db)
  {
    var run := RunOf(true, db, [p], invoices, fault);
    assert [p][..0] == [];
    assert Steps(run, State(db, NOTHING), [p]) == Step(run, Steps(run, State(db, NOTHING), []), p);
    PlansKnow([p], db);
    assert Knows(PlanAll([p], db), [p][0], db);
  }

  /**
   * A run stopped after it stamped a grant and before it wrote the row. A rerun credits the payment by
   * its stamp if and only if the payment had no row yet; with a row of no Ink, the rerun reads that
   * row's 0, finds no unstamped grant, and leaves the payment without Ink.
   */
  lemma RerunAfterStop(w: World, env: Env, other: set<nat>, job: nat, p: Entity, fault: nat -> Fault)
    requires Safe(w, env, other) && HasJob(w, job) && w.jobs[job].Held? && AllFine(fault)
    requires IsChargeOf(p, w.jobs[job].id, UserOf(env, w.jobs[job].id), SubIdOf(env, w.jobs[job].id))
    requires p.id.value in w.db.rows ==>
               RowLacksInk(w.db, p.id.value) && w.db.rows[p.id.value].user == UserOf(env, p.id.value)
    ensures var after := Backfilled(w.db, [p], true, w.invoices, fault).db;
      && after.ledger == w.db.ledger
      && w.jobs[job].place < |w.db.ledger| && w.db.ledger[w.jobs[job].place].delta > 0
      && PlanInk(after.rows, p.id.value)
         == if p.id.value in w.db.rows then 0 else w.db.ledger[w.jobs[job].place].delta
  {
    var db, id, place := w.db, p.id.value, w.jobs[job].place;
    var run := RunOf(true, db, [p], w.invoices, fault);
    assert JobFits(db.ledger, env, other, w.jobs[job]) && OnceFits(w, env, w.jobs[job]);
    BackfillOfOne(db, p, w.invoices, fault);
    assert fault(id) == Fine;
    if id in db.rows {
      NoPlaceLeft(run, db, env, id, Resolve(p, db).value);
    } else {
      ConfirmedIsDelta(db.ledger, env, id, place);
    }
    StepDb(run, State(db, NOTHING), p, Resolve(p, db).value);
  }

  lemma NoPlaceLeft(run: Run, db: Db, env: Env, id: nat, ctx: Context)
    requires Exhausted(db.ledger, env, id) && ctx.user == UserOf(env, id) && id in run.plans.resolved
    requires run.plans.resolved[id].1 == None || run.plans.resolved[id].1 == Some(SubIdOf(env, id))
    ensures Found(run, db, id, ctx) == None
  {
    WhereNone(db.ledger, (g: Grant) => IsUnstamped(g, UserOf(env, id), SubIdOf(env, id)));
  }

  // ----- such a stop exists -------------------------------------------------------------------------------------

  /** A subscription with one charge, one unstamped grant, and a row of the charge that holds no Ink. */
  function StopStart(): World {
    World(Db(map[1 := Row(7, PaymentsBackfill.Kind.Plan, Some(5), 0, false)], [Grant(7, 5, 20, None)]), s => 1, [Idle])
  }

  function StopEnv(): Env {
    Env(id => (7, 5))
  }

  function StopPayment(): Entity {
    Entity(Some(1), false, true, FromSubscription(7, 5), Some(5))
  }

  function StopPlans(): Plans {
    PlanAll([StopPayment()], StopStart().db)
  }

  lemma StopStartIsStart()
    ensures IsStart(StopStart(), StopEnv(), {})
  {
    var w := StopStart();
    forall xs: seq<nat>, user: nat, sub: nat ensures Covered(w.db, StopEnv(), {}, xs, user, sub) {
      if xs != [] {
        assert xs[0] in xs;
      }
    }
  }

  lemma StopPlace(w: World)
    requires w.db == StopStart().db && w.invoices == StopStart().invoices
    ensures PlaceFor(w, StopEnv(), 1, StopPlans()) == Some(0)
  {
    WhereSingle(w.db.ledger[0], (g: Grant) => IsUnstamped(g, 7, 5));
    assert [StopPayment()][..0] == [];
    assert PlanAll([StopPayment()], w.db) == PaymentsBackfill.Planned(PlanAll([], w.db), StopPayment(), w.db);
    OneCharge(w.db.rows, 5, {1}, 1, 1);
  }

  /** The run reads the row, finds its grant and stamps it, and goes no further. */
  function StoppedRun(): seq<Action> {
    [ReadRow(0, 1)] + (Guards(0, StopPlans()) + [SetStamp(0)])
  }

  lemma {:induction false} PlayConcat(w: World, env: Env, a: seq<Action>, b: seq<Action>)
    ensures Play(w, env, a + b) == Play(Play(w, env, a), env, b)
    decreases |b|
  {
    if b == [] {
      assert a + b == a;
    } else {
      var n := |b| - 1;
      PlayConcat(w, env, a, b[..n]);
      assert (a + b)[..|a + b| - 1] == a + b[..n];
    }
  }

  lemma StoppedRunHolds()
    ensures var w := Play(StopStart(), StopEnv(), StoppedRun());
      && w.jobs == [Held(1, 0)] && w.db.rows == StopStart().db.rows && w.invoices == StopStart().invoices
      && Safe(w, StopEnv(), {})
  {
    var start, env := StopStart(), StopEnv();
    StopStartIsStart();
    StartIsSafe(start, env, {});
    RunsAreOrderly(start, env, StoppedRun());
    PlayKeepsSafe(start, env, {}, StoppedRun());
    StoppedRunEnds(start, env);
  }

  lemma StoppedRunEnds(start: World, env: Env)
    requires start == StopStart() && env == StopEnv()
    ensures var w := Play(start, env, StoppedRun());
      w.jobs == [Held(1, 0)] && w.db.rows == start.db.rows && w.invoices == start.invoices
  {
    var planned := WithJob(start, 0, Planned(1));
    PlayConcat(start, env, [ReadRow(0, 1)], Guards(0, StopPlans()) + [SetStamp(0)]);
    PlayOne(start, env, ReadRow(0, 1));
    StopPlace(planned);
    GuardsAndStamp(planned, env, 0, StopPlans());
  }

  /** From a plain start: a run that stops there, and a rerun that leaves the payment without Ink for good. */
  lemma StoppedRunExists(fault: nat -> Fault)
    requires AllFine(fault)
    ensures IsStart(StopStart(), StopEnv(), {})
    ensures var w := Play(StopStart(), StopEnv(), StoppedRun());
      var after := Backfilled(w.db, [StopPayment()], true, w.invoices, fault).db;
      StampedAt(after.ledger, 0, 1) && after.ledger[0].delta == 20 && PlanInk(after.rows, 1) == 0
  {
    var w := Play(StopStart(), StopEnv(), StoppedRun());
    StopStartIsStart();
    StoppedRunHolds();
    assert JobFits(w.db.ledger, StopEnv(), {}, w.jobs[0]);
    PlayKeepsStamps(StopStart(), StopEnv(), StoppedRun());
    RerunAfterStop(w, StopEnv(), {}, 0, StopPayment(), fault);
  }

  /** And a run that the webhook overtakes: two grants name the payment. */
  lemma RaceExists()
    ensures IsStart(StopStart(), StopEnv(), {})
    ensures var before := [ReadRow(0, 1)] + Guards(0, StopPlans());
      !NamedOnce(Play(StopStart(), StopEnv(), before + [NewGrant(1, 20)] + [SetStamp(0)]).db.ledger)
  {
    var start, env := StopStart(), StopEnv();
    var before := [ReadRow(0, 1)] + Guards(0, StopPlans());
    var planned := WithJob(start, 0, Planned(1));
    StopStartIsStart();
    PlayConcat(start, env, [ReadRow(0, 1)], Guards(0, StopPlans()));
    PlayOne(start, env, ReadRow(0, 1));
    StopPlace(planned);
    GuardsChoose(planned, env, 0, StopPlans());
    PlayMore(start, env, before, NewGrant(1, 20));
    PlayMore(start, env, before + [NewGrant(1, 20)], SetStamp(0));
    RaceNamesTwice(Play(start, env, before), env, 0, 1, 20);
  }
}
