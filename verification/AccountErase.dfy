/**
 * Closing and erasing one account (apps/auth/src/services/account-erase.service.ts).
 *
 * Any number of erase runs (DELETE /me, the sweep, the operator script) and lock calls interleave.
 * Every database or remote call is one atomic action; it may fail before or after taking effect,
 * and a run may stop for good anywhere. Two calls are one action: a run's first read of the User, and
 * of the audit log when there is none. The upsert of the account_delete row is taken as atomic, though
 * no unique index makes it so. `Apply` is one action, `Play` a whole history of them, and the theorems
 * hold for every list of actions. `log` records what happened, in order.
 */
module AccountErase {
  import opened Options

  // ----- the account and its data -----------------------------------------------------------------

  /** Indexes into ERASURE_STAGES. */
  const LOCKED: nat := 0
  const DRAFTING_ERASED: nat := 1
  const BILLING_ERASED: nat := 2
  const AUTH_DATA_ERASED: nat := 3
  const AUDIT_DONE: nat := 4

  datatype Erasure = Erasure(requestedAt: int, stage: nat, lastAttemptAt: Option<int>, attempts: nat)

  datatype User = User(isActive: bool, erasure: Option<Erasure>)

  /** The stores that hold rows of the user, other than the audit log. */
  datatype Store = Drafting | Billing | Sessions | RedisKeys

  datatype AuditKind = Payment | AccountDelete | OtherKind

  /** `detailed`: the row still carries severity, IP address or metadata. Times are in seconds. */
  datatype AuditRow = AuditRow(kind: AuditKind, detailed: bool, createdAt: int)

  /** The audit log's TTL index on createdAt: two years. */
  const AUDIT_TTL: int := 63072000

  /** Where a run of runAccountErase stands. */
  datatype Pc =
    | Reading
    | Calling(step: nat, call: nat)
    | Saving(step: nat)
    | RecheckDrafting
    | RecheckBilling(d: nat)
    | Deleting(d: nat, b: nat)
    | Failing
    | Finished(done: bool)

  datatype Event =
    | LockSet
    | StepDone(step: nat)
    | Emptied(store: Store)
    | Rechecked(store: Store, run: nat)
    | SessionsKilled
    | Wrote(store: Store, row: nat)
    | AuditStripped
    | AuditDropped
    | AuditWrote(entry: AuditRow)
    | AuditRecorded(createdAt: int)
    | AuditExpired(createdAt: int)
    | UserDeleted(run: nat)

  datatype World = World(
    user: Option<User>, rows: map<Store, set<nat>>, audit: seq<AuditRow>, runs: map<nat, Pc>, clock: int,
    log: seq<Event>)

  // ----- one atomic action ------------------------------------------------------------------------------

  datatype Outcome = Ok | FailBefore | FailAfter

  datatype Action =
    | Start(run: nat)
    | Step(run: nat, outcome: Outcome, now: int)
    | Crash(run: nat)
    | SetLock(now: int)
    | SetInactive
    | KillSessions
    | WriteRow(store: Store, row: nat)
    | WriteAudit(entry: AuditRow)
    | Pass(seconds: nat)
    | ExpireAudit(at: nat)

  /** How many calls each step makes (read counts included). */
  function Calls(step: nat): nat {
    if step == AUTH_DATA_ERASED || step == AUDIT_DONE then 4 else 1
  }

  function Empty(w: World, s: Store): World {
    w.(rows := w.rows[s := {}], log := w.log + [Emptied(s)])
  }

  predicate Kept(row: AuditRow) {
    row.kind != OtherKind
  }

  function StripAudit(rows: seq<AuditRow>): (r: seq<AuditRow>)
    ensures |r| == |rows|
    ensures forall i :: 0 <= i < |rows| ==> r[i] == if Kept(rows[i]) then rows[i].(detailed := false) else rows[i]
  {
    if rows == [] then []
    else [if Kept(rows[0]) then rows[0].(detailed := false) else rows[0]] + StripAudit(rows[1..])
  }

  function DropAudit(rows: seq<AuditRow>): (r: seq<AuditRow>)
    ensures forall e :: e in r <==> e in rows && Kept(e)
  {
    if rows == [] then []
    else (if Kept(rows[0]) then [rows[0]] else []) + DropAudit(rows[1..])
  }

  predicate HasDeleteRow(audit: seq<AuditRow>) {
    exists e :: e in audit && e.kind == AccountDelete
  }

  /** When the account_delete row that a lookup finds was written. */
  function DeleteTime(audit: seq<AuditRow>): (t: int)
    requires HasDeleteRow(audit)
    ensures exists e :: e in audit && e.kind == AccountDelete && e.createdAt == t
  {
    if audit[0].kind == AccountDelete then audit[0].createdAt
    else
      assert HasDeleteRow(audit[1..]) by {
        var e :| e in audit && e.kind == AccountDelete;
        assert e in audit[1..];
      }
      DeleteTime(audit[1..])
  }

  /** $setOnInsert: an account_delete row that is there keeps its time. */
  function RecordDelete(w: World): World {
    if HasDeleteRow(w.audit) then w.(log := w.log + [AuditRecorded(DeleteTime(w.audit))])
    else w.(audit := w.audit + [AuditRow(AccountDelete, false, w.clock)], log := w.log + [AuditRecorded(w.clock)])
  }

  /** What call `call` of step `step` does to the stores. */
  function Effect(w: World, step: nat, call: nat): World {
    if step == DRAFTING_ERASED then Empty(w, Drafting)
    else if step == BILLING_ERASED then Empty(w, Billing)
    else if step == AUTH_DATA_ERASED then
      if call == 2 then Empty(w, Sessions) else if call == 3 then Empty(w, RedisKeys) else w
    else if call == 0 then RecordDelete(w)
    else if call == 1 then w.(audit := StripAudit(w.audit), log := w.log + [AuditStripped])
    else if call == 2 then w.(audit := DropAudit(w.audit), log := w.log + [AuditDropped])
    else w
  }

  function Goto(w: World, run: nat, pc: Pc): World {
    w.(runs := w.runs[run := pc])
  }

  /** The step a run takes up after the stage it read, or after finishing a step. */
  function AfterStage(stage: nat): Pc {
    if stage < AUDIT_DONE then Calling(stage + 1, 0) else RecheckDrafting
  }

  /** The read at the start of runAccountErase. A failed read is not recorded as an attempt. */
  function ReadUser(w: World, run: nat, outcome: Outcome): World {
    if outcome != Ok then Goto(w, run, Finished(false))
    else match w.user
      case None => Goto(w, run, Finished(HasDeleteRow(w.audit)))
      case Some(u) =>
        if u.erasure.None? then Goto(w, run, Finished(false))
        else Goto(w, run, AfterStage(u.erasure.value.stage))
  }

  /** User.updateOne({ _id }, { $set: { 'erasure.stage': step } }): unconditional. */
  function SaveStage(w: World, step: nat): World {
    match w.user
    case Some(User(active, Some(e))) => w.(user := Some(User(active, Some(e.(stage := step)))))
    case _ => w
  }

  function RecordAttempt(w: World, now: int): World {
    match w.user
    case Some(User(active, Some(e))) =>
      w.(user := Some(User(active, Some(e.(lastAttemptAt := Some(now), attempts := e.attempts + 1)))))
    case _ => w
  }

  /** User.deleteOne({ _id, erasure: { $exists: true } }) */
  function DeleteUser(w: World, run: nat): World {
    match w.user
    case Some(User(_, Some(_))) => w.(user := None, log := w.log + [UserDeleted(run)])
    case _ => w
  }

  function Log(w: World, e: Event): World {
    w.(log := w.log + [e])
  }

  /** The next call of a run, with what the call's outcome leads to. */
  function StepRun(w: World, run: nat, outcome: Outcome, now: int): World
    requires run in w.runs
  {
    match w.runs[run]
    case Reading => ReadUser(w, run, outcome)
    case Calling(step, call) =>
      if outcome == FailBefore then Goto(w, run, Failing)
      else
        var v := Effect(w, step, call);
        if outcome == FailAfter then Goto(v, run, Failing)
        else if call + 1 < Calls(step) then Goto(v, run, Calling(step, call + 1))
        else Goto(Log(v, StepDone(step)), run, Saving(step))
    case Saving(step) =>
      if outcome == FailBefore then Goto(w, run, Failing)
      else Goto(SaveStage(w, step), run, if outcome == Ok then AfterStage(step) else Failing)
    case RecheckDrafting =>
      if outcome == FailBefore then Goto(w, run, Failing)
      else
        var v := Empty(w, Drafting);
        if outcome == FailAfter then Goto(v, run, Failing)
        else Goto(Log(v, Rechecked(Drafting, run)), run, RecheckBilling(|v.log|))
    case RecheckBilling(d) =>
      if outcome == FailBefore then Goto(w, run, Failing)
      else
        var v := Empty(w, Billing);
        if outcome == FailAfter then Goto(v, run, Failing)
        else Goto(Log(v, Rechecked(Billing, run)), run, Deleting(d, |v.log|))
    case Deleting(_, _) =>
      if outcome == FailBefore then Goto(w, run, Failing)
      else Goto(DeleteUser(w, run), run, if outcome == Ok then Finished(true) else Failing)
    case Failing => Goto(if outcome == FailBefore then w else RecordAttempt(w, now), run, Finished(false))
    case Finished(_) => w
  }

  /** Any action anyone can take. An action that does not apply changes nothing. */
  function Apply(w: World, a: Action): World {
    match a
    case Start(run) => if run in w.runs then w else Goto(w, run, Reading)
    case Step(run, outcome, now) => if run in w.runs then StepRun(w, run, outcome, now) else w
    case Crash(run) => w.(runs := w.runs - {run})
    case SetLock(now) =>
      (match w.user
       case Some(User(_, None)) =>
         w.(user := Some(User(false, Some(Erasure(now, LOCKED, None, 0)))), log := w.log + [LockSet])
       case _ => w)
    case SetInactive => if w.user.Some? then w.(user := Some(w.user.value.(isActive := false))) else w
    case KillSessions => w.(rows := w.rows[Sessions := {}], log := w.log + [SessionsKilled])
    case WriteRow(s, row) =>
      w.(rows := w.rows[s := (if s in w.rows then w.rows[s] else {}) + {row}], log := w.log + [Wrote(s, row)])
    case WriteAudit(e) =>
      if e.kind == AccountDelete then w
      else
        var entry := e.(createdAt := w.clock);
        w.(audit := w.audit + [entry], log := w.log + [AuditWrote(entry)])
    case Pass(seconds) => w.(clock := w.clock + seconds)
    case ExpireAudit(i) => if i < |w.audit| && w.audit[i].createdAt + AUDIT_TTL <= w.clock then Expired(w, i) else w
  }

  /** The TTL index removes a row. */
  function Expired(w: World, i: nat): World
    requires i < |w.audit|
  {
    var rest := w.audit[..i] + w.audit[i + 1..];
    if w.audit[i].kind == AccountDelete
    then w.(audit := rest, log := w.log + [AuditExpired(w.audit[i].createdAt)])
    else w.(audit := rest)
  }

  function Play(w: World, actions: seq<Action>): World {
    if actions == [] then w
    else Apply(Play(w, actions[..|actions| - 1]), actions[|actions| - 1])
  }

  /** An account that nobody has started to close. */
  predicate Initial(w: World) {
    w.user.Some? && w.user.value.erasure.None? && w.runs == map[] && w.log == []
  }

  // ----- what every history keeps -----------------------------------------------------------------------

  /** Every step up to `n` has completed. */
  ghost predicate DoneUpTo(log: seq<Event>, n: nat) {
    forall s: nat :: 1 <= s <= n ==> StepDone(s) in log
  }

  ghost predicate AfterLock(log: seq<Event>, i: nat)
    requires i < |log|
  {
    log[i].StepDone? ==> LockSet in log[..i]
  }

  /** Steps only complete after the account is locked. */
  ghost predicate LockedFirst(log: seq<Event>) {
    forall i {:trigger AfterLock(log, i)} :: 0 <= i < |log| ==> AfterLock(log, i)
  }

  /** The two rechecks of run `run` at `d` and `b`, after all four steps. */
  ghost predicate RecheckedAt(log: seq<Event>, run: nat, d: nat, b: nat) {
    && d < b < |log| && log[d] == Rechecked(Drafting, run) && log[b] == Rechecked(Billing, run)
    && DoneUpTo(log[..d], AUDIT_DONE)
  }

  ghost predicate DeletionSound(log: seq<Event>, k: nat)
    requires k < |log|
  {
    log[k].UserDeleted? ==> exists d, b :: RecheckedAt(log[..k], log[k].run, d, b)
  }

  ghost predicate DeletedRightly(log: seq<Event>) {
    forall k {:trigger DeletionSound(log, k)} :: 0 <= k < |log| ==> DeletionSound(log, k)
  }

  ghost predicate Recorded(log: seq<Event>) {
    exists i :: 0 <= i < |log| && log[i].AuditRecorded?
  }

  ghost predicate RunSound(log: seq<Event>, run: nat, pc: Pc) {
    && (!pc.Reading? && !pc.Finished? ==> LockSet in log)
    && match pc
      case Calling(step, call) =>
        && 1 <= step <= AUDIT_DONE && call < Calls(step) && DoneUpTo(log, step - 1)
        && (step == AUDIT_DONE && call > 0 ==> Recorded(log))
      case Saving(step) => 1 <= step <= AUDIT_DONE && DoneUpTo(log, step)
      case RecheckDrafting => DoneUpTo(log, AUDIT_DONE)
      case RecheckBilling(d) => d < |log| && log[d] == Rechecked(Drafting, run) && DoneUpTo(log[..d], AUDIT_DONE)
      case Deleting(d, b) => RecheckedAt(log, run, d, b)
      case _ => true
  }

  ghost predicate UserSound(w: World) {
    && (w.user.None? ==> exists k :: 0 <= k < |w.log| && w.log[k].UserDeleted?)
    && (w.user.Some? && w.user.value.erasure.Some? ==>
          && LockSet in w.log && !w.user.value.isActive
          && w.user.value.erasure.value.stage <= AUDIT_DONE
          && DoneUpTo(w.log, w.user.value.erasure.value.stage))
  }

  /** An account_delete row of that time is there. */
  predicate HasDeleteRowOf(audit: seq<AuditRow>, at: int) {
    exists e :: e in audit && e.kind == AccountDelete && e.createdAt == at
  }

  /** Each recorded row is there, or two years have passed since it was written. */
  ghost predicate AuditSound(w: World) {
    && (forall i :: 0 <= i < |w.log| && w.log[i].AuditRecorded? ==> StandsOrOld(w, w.log[i].createdAt))
    && (StepDone(AUDIT_DONE) in w.log ==> Recorded(w.log))
  }

  ghost predicate StandsOrOld(w: World, at: int) {
    HasDeleteRowOf(w.audit, at) || at + AUDIT_TTL <= w.clock
  }

  ghost predicate Inv(w: World) {
    && UserSound(w)
    && (forall r {:trigger RunSound(w.log, r, w.runs[r])} :: r in w.runs ==> RunSound(w.log, r, w.runs[r]))
    && LockedFirst(w.log)
    && DeletedRightly(w.log)
    && AuditSound(w)
  }

  lemma RunSoundGrows(log: seq<Event>, log': seq<Event>, run: nat, pc: Pc)
    requires log <= log' && RunSound(log, run, pc)
    ensures RunSound(log', run, pc)
  {
    if pc.Calling? && Recorded(log) {
      var i :| 0 <= i < |log| && log[i].AuditRecorded?;
      assert log'[i] == log[i];
    } else if pc.RecheckBilling? {
      assert log'[..pc.d] == log[..pc.d];
    } else if pc.Deleting? {
      assert log'[..pc.d] == log[..pc.d];
    }
  }

  lemma RunsGrow(w: World, v: World)
    requires Inv(w) && v.runs == w.runs && w.log <= v.log
    ensures forall r {:trigger RunSound(v.log, r, v.runs[r])} :: r in v.runs ==> RunSound(v.log, r, v.runs[r])
  {
    forall r | r in v.runs ensures RunSound(v.log, r, v.runs[r]) {
      assert RunSound(w.log, r, w.runs[r]);
      RunSoundGrows(w.log, v.log, r, v.runs[r]);
    }
  }

  /** What may be appended to the log without anything else changing. */
  ghost predicate Harmless(w: World, e: Event) {
    && !e.UserDeleted?
    && (e.StepDone? ==> LockSet in w.log)
    && (e == StepDone(AUDIT_DONE) ==> Recorded(w.log))
    && (e.AuditRecorded? ==> HasDeleteRowOf(w.audit, e.createdAt))
  }

  lemma LockedFirstGrows(log: seq<Event>, e: Event)
    requires LockedFirst(log) && (e.StepDone? ==> LockSet in log)
    ensures LockedFirst(log + [e])
  {
    forall i | 0 <= i < |log + [e]| ensures AfterLock(log + [e], i) {
      assert (log + [e])[..i] == log[..i];
      assert i < |log| ==> AfterLock(log, i);
      assert i == |log| ==> log[..i] == log;
    }
  }

  lemma DeletedRightlyGrows(log: seq<Event>, e: Event, d: nat, b: nat)
    requires DeletedRightly(log) && (e.UserDeleted? ==> RecheckedAt(log, e.run, d, b))
    ensures DeletedRightly(log + [e])
  {
    var l := log + [e];
    forall k | 0 <= k < |l| ensures DeletionSound(l, k) {
      if k < |log| {
        assert DeletionSound(log, k) && l[..k] == log[..k] && l[k] == log[k];
      } else {
        assert l[..k] == log;
        assert e.UserDeleted? ==> RecheckedAt(l[..k], l[k].run, d, b);
      }
    }
  }

  lemma RecordedGrows(log: seq<Event>, e: Event)
    ensures Recorded(log + [e]) <==> Recorded(log) || e.AuditRecorded?
  {
    if i :| 0 <= i < |log| && log[i].AuditRecorded? {
      assert (log + [e])[i].AuditRecorded?;
    }
    if e.AuditRecorded? {
      assert (log + [e])[|log|].AuditRecorded?;
    }
  }

  lemma AuditSoundGrows(w: World, e: Event)
    requires AuditSound(w) && Harmless(w, e)
    ensures AuditSound(Log(w, e))
  {
    var v := Log(w, e);
    RecordedGrows(w.log, e);
    forall i | 0 <= i < |v.log| && v.log[i].AuditRecorded? ensures StandsOrOld(v, v.log[i].createdAt) {
      assert i < |w.log| ==> StandsOrOld(w, w.log[i].createdAt);
    }
  }

  lemma InvLog(w: World, e: Event)
    requires Inv(w) && Harmless(w, e)
    ensures Inv(Log(w, e))
  {
    var v := Log(w, e);
    RunsGrow(w, v);
    LockedFirstGrows(w.log, e);
    DeletedRightlyGrows(w.log, e, 0, 0);
    AuditSoundGrows(w, e);
    if w.user.None? {
      var k :| 0 <= k < |w.log| && w.log[k].UserDeleted?;
      assert v.log[k] == w.log[k];
    }
  }

  lemma InvGoto(w: World, run: nat, pc: Pc)
    requires Inv(w) && RunSound(w.log, run, pc)
    ensures Inv(Goto(w, run, pc))
  {
    var v := Goto(w, run, pc);
    forall r | r in v.runs ensures RunSound(v.log, r, v.runs[r]) {
      assert r in w.runs ==> RunSound(w.log, r, w.runs[r]);
    }
  }

  /** Rows and audit details play no part in the invariant, account_delete rows do until they are old. */
  lemma InvData(w: World, v: World)
    requires Inv(w) && v.user == w.user && v.runs == w.runs && v.log == w.log && v.clock >= w.clock
    requires forall at :: HasDeleteRowOf(w.audit, at) ==> StandsOrOld(v, at)
    ensures Inv(v)
  {
    forall r | r in v.runs ensures RunSound(v.log, r, v.runs[r]) {
      assert RunSound(w.log, r, w.runs[r]);
    }
    forall i | 0 <= i < |v.log| && v.log[i].AuditRecorded? ensures StandsOrOld(v, v.log[i].createdAt) {
      assert StandsOrOld(w, w.log[i].createdAt);
    }
  }

  lemma InvEmpty(w: World, s: Store)
    requires Inv(w)
    ensures Inv(Empty(w, s))
  {
    InvLog(w, Emptied(s));
    InvData(Log(w, Emptied(s)), Empty(w, s));
  }

  lemma AuditCallsKeepDeleteRow(audit: seq<AuditRow>, at: int)
    requires HasDeleteRowOf(audit, at)
    ensures HasDeleteRowOf(StripAudit(audit), at) && HasDeleteRowOf(DropAudit(audit), at)
  {
    var e :| e in audit && e.kind == AccountDelete && e.createdAt == at;
    var i :| 0 <= i < |audit| && audit[i] == e;
    assert StripAudit(audit)[i] in StripAudit(audit);
    assert e in DropAudit(audit);
  }

  lemma InvAuditCall(w: World, call: nat)
    requires Inv(w) && (call == 1 || call == 2)
    ensures Inv(Effect(w, AUDIT_DONE, call))
  {
    var u := Log(w, if call == 1 then AuditStripped else AuditDropped);
    InvLog(w, if call == 1 then AuditStripped else AuditDropped);
    forall at | HasDeleteRowOf(w.audit, at) ensures HasDeleteRowOf(Effect(w, AUDIT_DONE, call).audit, at) {
      AuditCallsKeepDeleteRow(w.audit, at);
    }
    InvData(u, Effect(w, AUDIT_DONE, call));
  }

  lemma InvRecord(w: World)
    requires Inv(w)
    ensures Inv(RecordDelete(w)) && Recorded(RecordDelete(w).log)
  {
    var at := if HasDeleteRow(w.audit) then DeleteTime(w.audit) else w.clock;
    var u := w.(audit := RecordDelete(w).audit);
    forall x | HasDeleteRowOf(w.audit, x) ensures HasDeleteRowOf(u.audit, x) {
      var e :| e in w.audit && e.kind == AccountDelete && e.createdAt == x;
      assert e in u.audit;
    }
    InvData(w, u);
    if !HasDeleteRow(w.audit) {
      assert u.audit[|w.audit|] == AuditRow(AccountDelete, false, w.clock);
    }
    InvLog(u, AuditRecorded(at));
    RecordedGrows(w.log, AuditRecorded(at));
  }

  lemma InvEffect(w: World, step: nat, call: nat)
    requires Inv(w) && 1 <= step <= AUDIT_DONE && call < Calls(step)
    ensures Inv(Effect(w, step, call))
    ensures w.log <= Effect(w, step, call).log && Effect(w, step, call).runs == w.runs
    ensures step == AUDIT_DONE && call == 0 ==> Recorded(Effect(w, step, call).log)
  {
    if step == AUDIT_DONE {
      if call == 0 {
        InvRecord(w);
      } else if call < 3 {
        InvAuditCall(w, call);
      }
    } else if step == DRAFTING_ERASED {
      InvEmpty(w, Drafting);
    } else if step == BILLING_ERASED {
      InvEmpty(w, Billing);
    } else if call == 2 {
      InvEmpty(w, Sessions);
    } else if call == 3 {
      InvEmpty(w, RedisKeys);
    }
  }

  lemma InvCall(w: World, run: nat, outcome: Outcome, now: int)
    requires Inv(w) && run in w.runs && w.runs[run].Calling?
    ensures Inv(StepRun(w, run, outcome, now))
  {
    assert RunSound(w.log, run, w.runs[run]);
    var pc := w.runs[run];
    var v := Effect(w, pc.step, pc.call);
    InvEffect(w, pc.step, pc.call);
    InvGoto(w, run, Failing);
    InvGoto(v, run, Failing);
    RunSoundGrows(w.log, v.log, run, pc);
    if pc.call + 1 < Calls(pc.step) {
      InvGoto(v, run, Calling(pc.step, pc.call + 1));
    } else {
      InvLog(v, StepDone(pc.step));
      RunSoundGrows(v.log, Log(v, StepDone(pc.step)).log, run, pc);
      assert StepDone(pc.step) in Log(v, StepDone(pc.step)).log;
      InvGoto(Log(v, StepDone(pc.step)), run, Saving(pc.step));
    }
  }

  /** The stage write is unconditional, but names a step that this run has finished. */
  lemma InvSave(w: World, run: nat, outcome: Outcome, now: int)
    requires Inv(w) && run in w.runs && w.runs[run].Saving?
    ensures Inv(StepRun(w, run, outcome, now))
  {
    assert RunSound(w.log, run, w.runs[run]);
    var step := w.runs[run].step;
    InvGoto(w, run, Failing);
    var v := SaveStage(w, step);
    InvGoto(v, run, Failing);
    InvGoto(v, run, AfterStage(step));
  }

  /** A recheck call: the store is emptied, and the success is logged. */
  lemma InvRechecked(w: World, run: nat, s: Store, pc: Pc)
    requires Inv(w) && RunSound(w.log, run, pc)
    ensures Inv(Empty(w, s)) && Inv(Log(Empty(w, s), Rechecked(s, run)))
    ensures RunSound(Log(Empty(w, s), Rechecked(s, run)).log, run, pc)
  {
    InvEmpty(w, s);
    InvLog(Empty(w, s), Rechecked(s, run));
    RunSoundGrows(w.log, Empty(w, s).log, run, pc);
    RunSoundGrows(Empty(w, s).log, Log(Empty(w, s), Rechecked(s, run)).log, run, pc);
  }

  lemma InvRecheckDrafting(w: World, run: nat, outcome: Outcome, now: int)
    requires Inv(w) && run in w.runs && w.runs[run].RecheckDrafting?
    ensures Inv(StepRun(w, run, outcome, now))
  {
    assert RunSound(w.log, run, w.runs[run]);
    var v := Empty(w, Drafting);
    var u := Log(v, Rechecked(Drafting, run));
    InvRechecked(w, run, Drafting, w.runs[run]);
    InvGoto(w, run, Failing);
    InvGoto(v, run, Failing);
    RunSoundGrows(w.log, v.log, run, RecheckDrafting);
    assert u.log[..|v.log|] == v.log;
    InvGoto(u, run, RecheckBilling(|v.log|));
  }

  lemma InvRecheckBilling(w: World, run: nat, outcome: Outcome, now: int)
    requires Inv(w) && run in w.runs && w.runs[run].RecheckBilling?
    ensures Inv(StepRun(w, run, outcome, now))
  {
    assert RunSound(w.log, run, w.runs[run]);
    var v := Empty(w, Billing);
    var u := Log(v, Rechecked(Billing, run));
    InvRechecked(w, run, Billing, w.runs[run]);
    InvGoto(w, run, Failing);
    InvGoto(v, run, Failing);
    InvGoto(u, run, Deleting(w.runs[run].d, |v.log|));
  }

  lemma InvDelete(w: World, run: nat, outcome: Outcome, now: int)
    requires Inv(w) && run in w.runs && w.runs[run].Deleting?
    ensures Inv(StepRun(w, run, outcome, now))
  {
    assert RunSound(w.log, run, w.runs[run]);
    var pc := w.runs[run];
    var v := DeleteUser(w, run);
    InvGoto(w, run, Failing);
    assert Inv(v) by {
      if v != w {
        LockedFirstGrows(w.log, UserDeleted(run));
        DeletedRightlyGrows(w.log, UserDeleted(run), pc.d, pc.b);
        RunsGrow(w, v);
        assert v.log[|w.log|].UserDeleted?;
      }
    }
    InvGoto(v, run, Failing);
    InvGoto(v, run, Finished(true));
  }

  lemma InvStepRun(w: World, run: nat, outcome: Outcome, now: int)
    requires Inv(w) && run in w.runs
    ensures Inv(StepRun(w, run, outcome, now))
  {
    match w.runs[run] {
      case Reading =>
      case Calling(_, _) => InvCall(w, run, outcome, now);
      case Saving(_) => InvSave(w, run, outcome, now);
      case RecheckDrafting => InvRecheckDrafting(w, run, outcome, now);
      case RecheckBilling(_) => InvRecheckBilling(w, run, outcome, now);
      case Deleting(_, _) => InvDelete(w, run, outcome, now);
      case Failing =>
      case Finished(_) =>
    }
  }

  lemma InvApply(w: World, a: Action)
    requires Inv(w)
    ensures Inv(Apply(w, a))
  {
    match a {
      case Start(run) =>
      case Step(run, outcome, now) => if run in w.runs { InvStepRun(w, run, outcome, now); }
      case Crash(_) =>
      case SetLock(now) =>
        if w.user.Some? && w.user.value.erasure.None? {
          InvLog(w, LockSet);
        }
      case SetInactive =>
      case KillSessions =>
        InvLog(w, SessionsKilled);
        InvData(Log(w, SessionsKilled), Apply(w, a));
      case WriteRow(s, row) =>
        InvLog(w, Wrote(s, row));
        InvData(Log(w, Wrote(s, row)), Apply(w, a));
      case WriteAudit(e) => InvWriteAudit(w, e);
      case Pass(seconds) => InvData(w, Apply(w, a));
      case ExpireAudit(i) => if i < |w.audit| && w.audit[i].createdAt + AUDIT_TTL <= w.clock { InvExpire(w, i); }
    }
  }

  lemma InvWriteAudit(w: World, e: AuditRow)
    requires Inv(w)
    ensures Inv(Apply(w, WriteAudit(e)))
  {
    var entry := e.(createdAt := w.clock);
    forall at | HasDeleteRowOf(w.audit, at) ensures HasDeleteRowOf(w.audit + [entry], at) {
      var x :| x in w.audit && x.kind == AccountDelete && x.createdAt == at;
      assert x in w.audit + [entry];
    }
    if e.kind != AccountDelete {
      InvLog(w, AuditWrote(entry));
      InvData(Log(w, AuditWrote(entry)), Apply(w, WriteAudit(e)));
    }
  }

  /** Any row but the removed one is still there. */
  lemma ExpiryKeeps(audit: seq<AuditRow>, i: nat, e: AuditRow)
    requires i < |audit| && e in audit && e != audit[i]
    ensures e in audit[..i] + audit[i + 1..]
  {
    var j :| 0 <= j < |audit| && audit[j] == e;
    assert (audit[..i] + audit[i + 1..])[if j < i then j else j - 1] == e;
  }

  lemma InvExpire(w: World, i: nat)
    requires Inv(w) && i < |w.audit| && w.audit[i].createdAt + AUDIT_TTL <= w.clock
    ensures Inv(Expired(w, i))
  {
    var u := w.(audit := w.audit[..i] + w.audit[i + 1..]);
    forall at | HasDeleteRowOf(w.audit, at) ensures StandsOrOld(u, at) {
      var e :| e in w.audit && e.kind == AccountDelete && e.createdAt == at;
      if e != w.audit[i] {
        ExpiryKeeps(w.audit, i, e);
      }
    }
    InvData(w, u);
    if w.audit[i].kind == AccountDelete {
      InvLog(u, AuditExpired(w.audit[i].createdAt));
    }
  }

  /** The invariant holds after any history of any number of runs. */
  lemma {:induction false} InvPlay(w: World, actions: seq<Action>)
    requires Initial(w)
    ensures Inv(Play(w, actions))
    decreases |actions|
  {
    if actions != [] {
      InvPlay(w, actions[..|actions| - 1]);
      InvApply(Play(w, actions[..|actions| - 1]), actions[|actions| - 1]);
    }
  }

  // ----- the promises ---------------------------------------------------------------------------------------

  /**
   * After any history, the stored stage names no step that has not completed since the lock, even
   * when a slower run moved the stage back; and the account is inactive from the lock on.
   */
  lemma StageNeverAhead(w: World, actions: seq<Action>, step: nat)
    requires Initial(w)
    ensures
      var v := Play(w, actions);
      v.user.Some? && v.user.value.erasure.Some? ==>
        && !v.user.value.isActive
        && (1 <= step <= v.user.value.erasure.value.stage ==>
              exists i, j :: 0 <= i < j < |v.log| && v.log[i] == LockSet && v.log[j] == StepDone(step))
  {
    InvPlay(w, actions);
    var v := Play(w, actions);
    if v.user.Some? && v.user.value.erasure.Some? && 1 <= step <= v.user.value.erasure.value.stage {
      var j :| 0 <= j < |v.log| && v.log[j] == StepDone(step);
      assert AfterLock(v.log, j);
      var i :| 0 <= i < j && v.log[..j][i] == LockSet;
      assert v.log[i] == LockSet;
    }
  }

  /** At `k` the User record was deleted, after the rechecks at `d` and `b` and all steps before them. */
  ghost predicate DeletedAt(log: seq<Event>, d: nat, b: nat, k: nat) {
    && d < b < k < |log| && log[k].UserDeleted?
    && log[d] == Rechecked(Drafting, log[k].run) && log[b] == Rechecked(Billing, log[k].run)
    && DoneUpTo(log[..d], AUDIT_DONE)
  }

  lemma InvDeletedAt(v: World) returns (d: nat, b: nat, k: nat)
    requires Inv(v) && v.user.None?
    ensures DeletedAt(v.log, d, b, k)
  {
    k :| 0 <= k < |v.log| && v.log[k].UserDeleted?;
    assert DeletionSound(v.log, k);
    var l := v.log[..k];
    d, b :| RecheckedAt(l, v.log[k].run, d, b);
    assert l[..d] == v.log[..d];
  }

  /**
   * The User record is gone only when some run deleted it, and before that, in this order: all four
   * steps had completed, that run erased drafting once more, and then billing once more.
   */
  lemma DeletedOnlyAfterRecheck(w: World, actions: seq<Action>)
    requires Initial(w)
    ensures var v := Play(w, actions); v.user.None? ==> exists d, b, k :: DeletedAt(v.log, d, b, k)
  {
    InvPlay(w, actions);
    if Play(w, actions).user.None? {
      var d, b, k := InvDeletedAt(Play(w, actions));
    }
  }

  // ----- the account_delete row ---------------------------------------------------------------------------

  /** When the row that was last recorded was written. */
  function LastRecorded(log: seq<Event>): Option<int> {
    if log == [] then None
    else if log[|log| - 1].AuditRecorded? then Some(log[|log| - 1].createdAt)
    else LastRecorded(log[..|log| - 1])
  }

  lemma {:induction false} LastRecordedIs(log: seq<Event>)
    ensures Recorded(log) <==> LastRecorded(log).Some?
    ensures LastRecorded(log).Some? ==> AuditRecorded(LastRecorded(log).value) in log
  {
    if log != [] {
      var n := |log| - 1;
      LastRecordedIs(log[..n]);
      assert log == log[..n] + [log[n]];
      RecordedGrows(log[..n], log[n]);
    }
  }

  lemma InvRecorded(v: World)
    requires Inv(v) && v.user.None?
    ensures Recorded(v.log)
  {
    var d, b, k := InvDeletedAt(v);
    assert StepDone(AUDIT_DONE) in v.log[..d];
  }

  /**
   * Once the User record is gone an account_delete row had been recorded, and one is there for two
   * years from its writing: an erase that ends within that time leaves it behind.
   */
  lemma DeleteRowOutlivesUser(w: World, actions: seq<Action>)
    requires Initial(w)
    ensures var v := Play(w, actions);
      v.user.None? ==>
        && LastRecorded(v.log).Some?
        && (v.clock < LastRecorded(v.log).value + AUDIT_TTL ==> HasDeleteRow(v.audit))
  {
    InvPlay(w, actions);
    var v := Play(w, actions);
    LastRecordedIs(v.log);
    if v.user.None? {
      InvRecorded(v);
      var at := LastRecorded(v.log).value;
      var i :| 0 <= i < |v.log| && v.log[i] == AuditRecorded(at);
      assert StandsOrOld(v, at);
    }
  }

  /** The last the log says of the account_delete row: recorded, or expired. */
  function LastAudit(log: seq<Event>): Option<Event> {
    if log == [] then None
    else if log[|log| - 1].AuditRecorded? || log[|log| - 1].AuditExpired? then Some(log[|log| - 1])
    else LastAudit(log[..|log| - 1])
  }

  /** The times of the account_delete rows. */
  function DeleteRows(audit: seq<AuditRow>): seq<int> {
    if audit == [] then []
    else DeleteRows(audit[..|audit| - 1])
         + (if audit[|audit| - 1].kind == AccountDelete then [audit[|audit| - 1].createdAt] else [])
  }

  /** The row that stands by the log's last word. */
  function Standing(log: seq<Event>): seq<int> {
    var last := LastAudit(log);
    if last.Some? && last.value.AuditRecorded? then [last.value.createdAt] else []
  }

  lemma {:induction false} DeleteRowsAre(audit: seq<AuditRow>)
    ensures HasDeleteRow(audit) <==> DeleteRows(audit) != []
    ensures forall e :: e in audit && e.kind == AccountDelete ==> e.createdAt in DeleteRows(audit)
  {
    if audit != [] {
      var n := |audit| - 1;
      DeleteRowsAre(audit[..n]);
      assert audit == audit[..n] + [audit[n]];
    }
  }

  lemma {:induction false} DeleteRowsConcat(a: seq<AuditRow>, b: seq<AuditRow>)
    ensures DeleteRows(a + b) == DeleteRows(a) + DeleteRows(b)
  {
    if b == [] {
      assert a + b == a;
    } else {
      var n := |b| - 1;
      assert (a + b)[..|a| + n] == a + b[..n];
      DeleteRowsConcat(a, b[..n]);
    }
  }

  lemma DeleteRowsOne(e: AuditRow)
    ensures DeleteRows([e]) == if e.kind == AccountDelete then [e.createdAt] else []
  {
    assert [e][..0] == [];
  }

  lemma DeleteRowsFront(e: AuditRow, rest: seq<AuditRow>)
    ensures DeleteRows([e] + rest) == (if e.kind == AccountDelete then [e.createdAt] else []) + DeleteRows(rest)
  {
    DeleteRowsOne(e);
    DeleteRowsConcat([e], rest);
  }

  lemma {:induction false} StripKeepsRows(audit: seq<AuditRow>)
    ensures DeleteRows(StripAudit(audit)) == DeleteRows(audit)
  {
    if audit != [] {
      StripKeepsRows(audit[1..]);
      DeleteRowsFront(audit[0], audit[1..]);
      DeleteRowsFront(StripAudit(audit)[0], StripAudit(audit[1..]));
      assert audit == [audit[0]] + audit[1..];
      assert StripAudit(audit) == [StripAudit(audit)[0]] + StripAudit(audit[1..]);
    }
  }

  lemma {:induction false} DropKeepsRows(audit: seq<AuditRow>)
    ensures DeleteRows(DropAudit(audit)) == DeleteRows(audit)
  {
    if audit != [] {
      DropKeepsRows(audit[1..]);
      DeleteRowsFront(audit[0], audit[1..]);
      assert audit == [audit[0]] + audit[1..];
      if Kept(audit[0]) {
        DeleteRowsFront(audit[0], DropAudit(audit[1..]));
      } else {
        assert DropAudit(audit) == DropAudit(audit[1..]);
      }
    }
  }

  lemma ExpiryRemoves(audit: seq<AuditRow>, i: nat)
    requires i < |audit|
    ensures audit[i].kind != AccountDelete ==> DeleteRows(audit[..i] + audit[i + 1..]) == DeleteRows(audit)
    ensures audit[i].kind == AccountDelete ==> |DeleteRows(audit[..i] + audit[i + 1..])| == |DeleteRows(audit)| - 1
  {
    DeleteRowsConcat(audit[..i], audit[i + 1..]);
    DeleteRowsConcat(audit[..i], [audit[i]]);
    DeleteRowsConcat(audit[..i] + [audit[i]], audit[i + 1..]);
    DeleteRowsOne(audit[i]);
    assert audit == audit[..i] + [audit[i]] + audit[i + 1..];
  }

  /** The rows are the one that stands, if any, and it was written since the start. */
  predicate RowInv(start: World, w: World) {
    && DeleteRows(w.audit) == Standing(w.log) && start.clock <= w.clock
    && (forall at :: at in Standing(w.log) ==> start.clock <= at <= w.clock)
    && (LastAudit(w.log).Some? && LastAudit(w.log).value.AuditExpired? ==> start.clock + AUDIT_TTL <= w.clock)
  }

  predicate IsAuditEvent(e: Event) {
    e.AuditRecorded? || e.AuditExpired?
  }

  lemma StandingNext(log: seq<Event>, e: Event)
    ensures Standing(log + [e])
         == if e.AuditRecorded? then [e.createdAt] else if e.AuditExpired? then [] else Standing(log)
    ensures LastAudit(log + [e]) == if IsAuditEvent(e) then Some(e) else LastAudit(log)
  {
  }

  /** What is no audit call leaves the audit log alone and says nothing of it. */
  predicate AuditAlone(w: World, v: World, es: seq<Event>) {
    && v.audit == w.audit && v.clock >= w.clock && v.log == w.log + es
    && forall i :: 0 <= i < |es| ==> !IsAuditEvent(es[i])
  }

  lemma {:induction false} NoAuditEvents(log: seq<Event>, es: seq<Event>)
    requires forall i :: 0 <= i < |es| ==> !IsAuditEvent(es[i])
    ensures LastAudit(log + es) == LastAudit(log)
  {
    if es == [] {
      assert log + es == log;
    } else {
      NoAuditEvents(log, es[..|es| - 1]);
      assert (log + es)[..|log + es| - 1] == log + es[..|es| - 1];
    }
  }

  lemma RowInvAlone(start: World, w: World, v: World, es: seq<Event>)
    requires RowInv(start, w) && AuditAlone(w, v, es)
    ensures RowInv(start, v)
  {
    NoAuditEvents(w.log, es);
  }

  lemma RowInvRecord(start: World, w: World)
    requires RowInv(start, w)
    ensures RowInv(start, RecordDelete(w))
  {
    DeleteRowsAre(w.audit);
    if HasDeleteRow(w.audit) {
      StandingNext(w.log, AuditRecorded(DeleteTime(w.audit)));
    } else {
      StandingNext(w.log, AuditRecorded(w.clock));
      DeleteRowsConcat(w.audit, [AuditRow(AccountDelete, false, w.clock)]);
      DeleteRowsOne(AuditRow(AccountDelete, false, w.clock));
    }
  }

  lemma RowInvEmpty(start: World, w: World, s: Store)
    requires RowInv(start, w)
    ensures RowInv(start, Empty(w, s))
  {
    RowInvAlone(start, w, Empty(w, s), [Emptied(s)]);
  }

  lemma RowInvEffect(start: World, w: World, step: nat, call: nat)
    requires RowInv(start, w)
    ensures RowInv(start, Effect(w, step, call))
  {
    if step == DRAFTING_ERASED {
      RowInvEmpty(start, w, Drafting);
    } else if step == BILLING_ERASED {
      RowInvEmpty(start, w, Billing);
    } else if step == AUTH_DATA_ERASED {
      RowInvEmpty(start, w, if call == 2 then Sessions else RedisKeys);
    } else if call == 0 {
      RowInvRecord(start, w);
    } else if call == 1 || call == 2 {
      RowInvAuditCall(start, w, call);
    }
  }

  lemma RowInvAuditCall(start: World, w: World, call: nat)
    requires RowInv(start, w) && (call == 1 || call == 2)
    ensures RowInv(start, Effect(w, AUDIT_DONE, call))
  {
    StripKeepsRows(w.audit);
    DropKeepsRows(w.audit);
    NoAuditEvents(w.log, [if call == 1 then AuditStripped else AuditDropped]);
  }

  /** The audit log, the clock and the log of events are the same. */
  predicate SameTrail(v: World, w: World) {
    v.audit == w.audit && v.clock == w.clock && v.log == w.log
  }

  lemma RowInvSame(start: World, w: World, v: World)
    requires RowInv(start, w) && SameTrail(v, w)
    ensures RowInv(start, v)
  {
  }

  /** A remote call has no effect, or its own, or ends its step. */
  lemma CallTrail(w: World, run: nat, outcome: Outcome, now: int)
    requires run in w.runs && w.runs[run].Calling?
    ensures var pc := w.runs[run];
      var v, u := StepRun(w, run, outcome, now), Effect(w, pc.step, pc.call);
      SameTrail(v, w) || SameTrail(v, u) || SameTrail(v, Log(u, StepDone(pc.step)))
  {
  }

  lemma RowInvStep(start: World, w: World, run: nat, outcome: Outcome, now: int)
    requires RowInv(start, w) && run in w.runs
    ensures RowInv(start, StepRun(w, run, outcome, now))
  {
    var pc := w.runs[run];
    if pc.Calling? {
      var v, u := StepRun(w, run, outcome, now), Effect(w, pc.step, pc.call);
      RowInvEffect(start, w, pc.step, pc.call);
      RowInvAlone(start, u, Log(u, StepDone(pc.step)), [StepDone(pc.step)]);
      CallTrail(w, run, outcome, now);
      if SameTrail(v, w) {
        RowInvSame(start, w, v);
      } else if SameTrail(v, u) {
        RowInvSame(start, u, v);
      } else {
        RowInvSame(start, Log(u, StepDone(pc.step)), v);
      }
    } else {
      RowInvQuiet(start, w, run, outcome, now);
    }
  }

  /** What a run's calls outside its steps log: an erase, its success, or the deletion of the User. */
  lemma OtherStepLogs(w: World, run: nat, outcome: Outcome, now: int) returns (es: seq<Event>)
    requires run in w.runs && !w.runs[run].Calling?
    ensures var v := StepRun(w, run, outcome, now);
      && v.audit == w.audit && v.clock == w.clock && v.log == w.log + es
      && forall i :: 0 <= i < |es| ==> es[i].Emptied? || es[i].Rechecked? || es[i].UserDeleted?
  {
    es := StepRun(w, run, outcome, now).log[|w.log|..];
  }

  lemma RowInvQuiet(start: World, w: World, run: nat, outcome: Outcome, now: int)
    requires RowInv(start, w) && run in w.runs && !w.runs[run].Calling?
    ensures RowInv(start, StepRun(w, run, outcome, now))
  {
    var es := OtherStepLogs(w, run, outcome, now);
    RowInvAlone(start, w, StepRun(w, run, outcome, now), es);
  }

  lemma RowInvExpire(start: World, w: World, i: nat)
    requires RowInv(start, w) && i < |w.audit| && w.audit[i].createdAt + AUDIT_TTL <= w.clock
    ensures RowInv(start, Expired(w, i))
  {
    DeleteRowsAre(w.audit);
    ExpiryRemoves(w.audit, i);
    StandingNext(w.log, AuditExpired(w.audit[i].createdAt));
  }

  lemma RowInvApply(start: World, w: World, a: Action)
    requires RowInv(start, w)
    ensures RowInv(start, Apply(w, a))
  {
    if a.Step? {
      if a.run in w.runs {
        RowInvStep(start, w, a.run, a.outcome, a.now);
      }
    } else if a.ExpireAudit? {
      if a.at < |w.audit| && w.audit[a.at].createdAt + AUDIT_TTL <= w.clock {
        RowInvExpire(start, w, a.at);
      }
    } else if a.WriteAudit? {
      RowInvWriteAudit(start, w, a.entry);
    } else {
      OtherTrail(w, a);
      RowInvAlone(start, w, Apply(w, a), Apply(w, a).log[|w.log|..]);
    }
  }

  lemma RowInvWriteAudit(start: World, w: World, entry: AuditRow)
    requires RowInv(start, w)
    ensures RowInv(start, Apply(w, WriteAudit(entry)))
  {
    var e := entry.(createdAt := w.clock);
    DeleteRowsConcat(w.audit, [e]);
    DeleteRowsOne(e);
    NoAuditEvents(w.log, [AuditWrote(e)]);
  }

  lemma OtherTrail(w: World, a: Action)
    requires !a.Step? && !a.ExpireAudit? && !a.WriteAudit?
    ensures w.log <= Apply(w, a).log
    ensures AuditAlone(w, Apply(w, a), Apply(w, a).log[|w.log|..])
  {
  }

  lemma {:induction false} RowInvPlay(w: World, actions: seq<Action>)
    requires Initial(w) && !HasDeleteRow(w.audit)
    ensures RowInv(w, Play(w, actions))
    decreases |actions|
  {
    if actions == [] {
      DeleteRowsAre(w.audit);
    } else {
      RowInvPlay(w, actions[..|actions| - 1]);
      RowInvApply(w, Play(w, actions[..|actions| - 1]), actions[|actions| - 1]);
    }
  }

  /** In every history, an account_delete row is there exactly when the log's last word is that one was recorded. */
  lemma DeleteRowIffStanding(w: World, actions: seq<Action>)
    requires Initial(w) && !HasDeleteRow(w.audit)
    ensures HasDeleteRow(Play(w, actions).audit)
       <==> LastAudit(Play(w, actions).log).Some? && LastAudit(Play(w, actions).log).value.AuditRecorded?
  {
    RowInvPlay(w, actions);
    DeleteRowsAre(Play(w, actions).audit);
  }

  // ----- what is left of the data --------------------------------------------------------------------------

  type Rows = map<Store, set<nat>>

  function RowsOf(rows: Rows, s: Store): set<nat> {
    if s in rows then rows[s] else {}
  }

  /** What one logged event did to the rows. */
  function Moved(rows: Rows, e: Event): Rows {
    match e
    case Emptied(s) => rows[s := {}]
    case SessionsKilled => rows[Sessions := {}]
    case Wrote(s, row) => rows[s := RowsOf(rows, s) + {row}]
    case _ => rows
  }

  /** The rows that a log leaves behind. */
  function Replay(first: Rows, log: seq<Event>): Rows {
    if log == [] then first else Moved(Replay(first, log[..|log| - 1]), log[|log| - 1])
  }

  /** What a log may grow by in one action: nothing, one event, or an erase and the success it led to. */
  ghost predicate Grows(w: World, v: World, es: seq<Event>) {
    && v.log == w.log + es
    && v.rows == (if es == [] then w.rows else Moved(w.rows, es[0]))
    && (|es| <= 1 || (|es| == 2 && (es[1].StepDone? || (es[1].Rechecked? && es[0] == Emptied(es[1].store)))))
    && (es != [] ==> !es[0].Rechecked?)
  }

  lemma EffectGrows(w: World, step: nat, call: nat) returns (es: seq<Event>)
    ensures Grows(w, Effect(w, step, call), es) && |es| <= 1
  {
    var v := Effect(w, step, call);
    es := v.log[|w.log|..];
  }

  lemma StepRunGrows(w: World, run: nat, outcome: Outcome, now: int) returns (es: seq<Event>)
    requires run in w.runs
    ensures Grows(w, StepRun(w, run, outcome, now), es)
  {
    var pc := w.runs[run];
    if pc.Calling? && outcome != FailBefore {
      es := EffectGrows(w, pc.step, pc.call);
      if outcome == Ok && pc.call + 1 >= Calls(pc.step) {
        es := es + [StepDone(pc.step)];
      }
    } else if pc.RecheckDrafting? && outcome != FailBefore {
      es := [Emptied(Drafting)] + if outcome == Ok then [Rechecked(Drafting, run)] else [];
    } else if pc.RecheckBilling? && outcome != FailBefore {
      es := [Emptied(Billing)] + if outcome == Ok then [Rechecked(Billing, run)] else [];
    } else if pc.Deleting? && outcome != FailBefore && DeleteUser(w, run) != w {
      es := [UserDeleted(run)];
    } else {
      es := [];
    }
  }

  lemma ApplyGrows(w: World, a: Action) returns (es: seq<Event>)
    ensures Grows(w, Apply(w, a), es)
  {
    if a.Step? && a.run in w.runs {
      es := StepRunGrows(w, a.run, a.outcome, a.now);
    } else {
      es := Apply(w, a).log[|w.log|..];
    }
  }

  /** Every recheck in the log directly follows the erase it reports. */
  ghost predicate RecheckErased(log: seq<Event>) {
    forall i :: 0 <= i < |log| && log[i].Rechecked? ==> i > 0 && log[i - 1] == Emptied(log[i].store)
  }

  lemma {:induction false} RowsFollowPlay(w: World, actions: seq<Action>)
    requires w.log == []
    ensures Play(w, actions).rows == Replay(w.rows, Play(w, actions).log)
    ensures RecheckErased(Play(w, actions).log)
    decreases |actions|
  {
    if actions != [] {
      var before := Play(w, actions[..|actions| - 1]);
      RowsFollowPlay(w, actions[..|actions| - 1]);
      var es := ApplyGrows(before, actions[|actions| - 1]);
      ReplayGrows(w.rows, before.log, es);
      RecheckErasedGrows(before.log, es);
    }
  }

  lemma RecheckErasedGrows(log: seq<Event>, es: seq<Event>)
    requires RecheckErased(log) && |es| <= 2 && (es != [] ==> !es[0].Rechecked?)
    requires |es| == 2 && es[1].Rechecked? ==> es[0] == Emptied(es[1].store)
    ensures RecheckErased(log + es)
  {
  }

  lemma ReplayGrows(first: Rows, log: seq<Event>, es: seq<Event>)
    requires |es| <= 2 && (|es| == 2 ==> es[1].StepDone? || es[1].Rechecked?)
    ensures Replay(first, log + es) == if es == [] then Replay(first, log) else Moved(Replay(first, log), es[0])
  {
    if es == [] {
      assert log + es == log;
    } else {
      assert (log + es[..1])[..|log|] == log;
      if |es| == 2 {
        assert (log + es)[..|log| + 1] == log + es[..1];
      } else {
        assert es[..1] == es;
      }
    }
  }

  /** A row left after a store was emptied was written after that. */
  lemma {:induction false} LeftWasWritten(log: seq<Event>, s: Store, first: Rows, e: nat, row: nat)
    requires e < |log| && log[e] == Emptied(s) && row in RowsOf(Replay(first, log), s)
    ensures exists j :: e < j < |log| && log[j] == Wrote(s, row)
    decreases |log|
  {
    var n := |log| - 1;
    if log[n] != Wrote(s, row) {
      LeftWasWritten(log[..n], s, first, e, row);
      var j :| e < j < n && log[..n][j] == Wrote(s, row);
      assert log[j] == Wrote(s, row);
    }
  }

  /** `row` was written to `s` after the deleting run emptied `s` for the second time. */
  ghost predicate WrittenAfterRecheck(log: seq<Event>, s: Store, row: nat) {
    exists d: nat, b: nat, k: nat, j: nat {:trigger DeletedAt(log, d, b, k), log[j]} :: (
      DeletedAt(log, d, b, k) && (if s == Drafting then d else b) < j < |log| && log[j] == Wrote(s, row))
  }

  lemma LeftAfterRecheck(v: World, first: Rows, s: Store, row: nat)
    requires Inv(v) && v.user.None? && v.rows == Replay(first, v.log) && RecheckErased(v.log)
    requires s == Drafting || s == Billing
    requires row in RowsOf(v.rows, s)
    ensures WrittenAfterRecheck(v.log, s, row)
  {
    var d, b, k := InvDeletedAt(v);
    var i := if s == Drafting then d else b;
    LeftWasWritten(v.log, s, first, i - 1, row);
    var j :| i - 1 < j < |v.log| && v.log[j] == Wrote(s, row);
    assert i != j;
  }

  /**
   * Once the User record is gone, every drafting and billing row that is left was written after the
   * deleting run erased that service for the second time: the recheck catches whatever a request
   * in flight at the lock wrote before it.
   */
  lemma RowsLeftAreNewer(w: World, actions: seq<Action>, s: Store, row: nat)
    requires Initial(w) && Play(w, actions).user.None?
    requires s == Drafting || s == Billing
    requires row in RowsOf(Play(w, actions).rows, s)
    ensures WrittenAfterRecheck(Play(w, actions).log, s, row)
  {
    InvPlay(w, actions);
    RowsFollowPlay(w, actions);
    LeftAfterRecheck(Play(w, actions), w.rows, s, row);
  }

  // ----- a retry finishes the erase -------------------------------------------------------------------------

  /** How far a run still has to go. */
  function ToGo(pc: Pc): nat {
    match pc
    case Reading => 60
    case Calling(step, call) => if step <= 4 && call <= 4 then 54 - 10 * step - call else 61
    case Saving(step) => if step <= 4 then 49 - 10 * step else 61
    case RecheckDrafting => 4
    case RecheckBilling(_) => 3
    case Deleting(_, _) => 2
    case Failing => 1
    case Finished(_) => 0
  }

  predicate Closing(w: World) {
    w.user.Some? && w.user.value.erasure.Some? && w.user.value.erasure.value.stage <= AUDIT_DONE
  }

  predicate InBounds(pc: Pc) {
    match pc
    case Calling(step, call) => 1 <= step <= AUDIT_DONE && call < Calls(step)
    case Saving(step) => 1 <= step <= AUDIT_DONE
    case _ => true
  }

  /** Left alone, with every call succeeding, a run that has not failed erases the account. */
  lemma {:induction false} CleanRun(w: World, run: nat) returns (more: seq<Action>)
    requires Closing(w) && run in w.runs && InBounds(w.runs[run])
    requires !w.runs[run].Failing? && !w.runs[run].Finished?
    ensures forall a :: a in more ==> a == Step(run, Ok, 0)
    ensures PlayOn(w, more).user.None? && run in PlayOn(w, more).runs
    ensures PlayOn(w, more).runs[run] == Finished(true)
    decreases ToGo(w.runs[run])
  {
    var v := StepRun(w, run, Ok, 0);
    if w.runs[run].Deleting? {
      more := [Step(run, Ok, 0)];
      assert more[1..] == [];
    } else {
      var rest := CleanRun(v, run);
      more := [Step(run, Ok, 0)] + rest;
      assert more[1..] == rest;
    }
  }

  /** Play, from the first action on. */
  function PlayOn(w: World, actions: seq<Action>): World
    decreases |actions|
  {
    if actions == [] then w else PlayOn(Apply(w, actions[0]), actions[1..])
  }

  lemma {:induction false} PlayConcat(w: World, a: seq<Action>, b: seq<Action>)
    ensures Play(w, a + b) == PlayOn(Play(w, a), b)
    decreases |b|
  {
    if b == [] {
      assert a + b == a;
    } else {
      assert a + b == (a + [b[0]]) + b[1..];
      assert (a + [b[0]])[..|a|] == a;
      PlayConcat(w, a + [b[0]], b[1..]);
    }
  }

  /**
   * Whatever happened before, and wherever the last attempt stopped, one more run that is left
   * alone and meets no failure deletes the User record.
   */
  lemma RetryFinishes(w: World, actions: seq<Action>, run: nat) returns (more: seq<Action>)
    requires Initial(w)
    requires var v := Play(w, actions);
      v.user.Some? && v.user.value.erasure.Some? && run !in v.runs
    ensures forall a :: a in more ==> a == Start(run) || a == Step(run, Ok, 0)
    ensures Play(w, actions + more).user.None? && run in Play(w, actions + more).runs
    ensures Play(w, actions + more).runs[run] == Finished(true)
  {
    InvPlay(w, actions);
    var v := Play(w, actions);
    var rest := CleanRun(Apply(v, Start(run)), run);
    more := [Start(run)] + rest;
    assert more[1..] == rest;
    PlayConcat(w, actions, more);
  }

  // ----- a slow erase can lose its account_delete row -----------------------------------------------------------

  /** Left alone, with every call succeeding, a run comes to the recheck, and no time passes. */
  lemma {:induction false} CleanToRecheck(w: World, run: nat) returns (more: seq<Action>)
    requires Closing(w) && run in w.runs && InBounds(w.runs[run])
    requires w.runs[run].Reading? || w.runs[run].Calling? || w.runs[run].Saving? || w.runs[run].RecheckDrafting?
    ensures Closing(PlayOn(w, more)) && PlayOn(w, more).clock == w.clock
    ensures run in PlayOn(w, more).runs && PlayOn(w, more).runs[run] == RecheckDrafting
    decreases ToGo(w.runs[run])
  {
    if w.runs[run].RecheckDrafting? {
      more := [];
    } else {
      var rest := CleanToRecheck(StepRun(w, run, Ok, 0), run);
      more := [Step(run, Ok, 0)] + rest;
      assert more[1..] == rest;
    }
  }

  lemma {:induction false} RecordedIsLast(log: seq<Event>)
    ensures Recorded(log) ==> LastAudit(log).Some?
    ensures LastAudit(log).Some? ==> IsAuditEvent(LastAudit(log).value)
    ensures LastAudit(log).Some? && LastAudit(log).value.AuditRecorded? ==>
              LastRecorded(log) == Some(LastAudit(log).value.createdAt)
  {
    if log != [] {
      var n := |log| - 1;
      RecordedIsLast(log[..n]);
      RecordedGrows(log[..n], log[n]);
      assert log == log[..n] + [log[n]];
    }
  }

  lemma RecordedAtRecheck(v: World, run: nat)
    requires Inv(v) && run in v.runs && v.runs[run] == RecheckDrafting
    ensures Recorded(v.log)
  {
    assert RunSound(v.log, run, v.runs[run]);
    assert StepDone(AUDIT_DONE) in v.log;
  }

  /** A recorded row that had no time to expire stands, and was written just now. */
  lemma RowStands(start: World, v: World) returns (i: nat)
    requires RowInv(start, v) && Recorded(v.log) && v.clock == start.clock
    ensures i < |v.audit| && v.audit[i].kind == AccountDelete && v.audit[i].createdAt == start.clock
    ensures DeleteRows(v.audit) == [start.clock] && LastRecorded(v.log) == Some(start.clock)
  {
    RecordedIsLast(v.log);
    DeleteRowsAre(v.audit);
    assert Standing(v.log) == [LastAudit(v.log).value.createdAt];
    assert LastAudit(v.log).value.createdAt in Standing(v.log);
    var e :| e in v.audit && e.kind == AccountDelete;
    i :| 0 <= i < |v.audit| && v.audit[i] == e;
  }

  lemma LastRecordedNext(log: seq<Event>, e: Event)
    requires !e.AuditRecorded?
    ensures LastRecorded(log + [e]) == LastRecorded(log)
  {
  }

  /** From the recheck on, time passes, the row expires, and the run deletes the User record. */
  function EndsLate(run: nat, seconds: nat, i: nat): seq<Action> {
    [Pass(seconds)] + ([ExpireAudit(i)] + ([Step(run, Ok, 0)] + ([Step(run, Ok, 0)] + ([Step(run, Ok, 0)] + []))))
  }

  lemma PlayOnFirst(w: World, a: Action, rest: seq<Action>)
    ensures PlayOn(w, [a] + rest) == PlayOn(Apply(w, a), rest)
  {
    assert ([a] + rest)[1..] == rest;
  }

  /** The audit log, the clock and what was recorded are as they were. */
  predicate AuditUntouched(w: World, v: World) {
    v.audit == w.audit && v.clock == w.clock && LastRecorded(v.log) == LastRecorded(w.log)
  }

  lemma LateDrafting(w: World, run: nat)
    requires Closing(w) && run in w.runs && w.runs[run].RecheckDrafting?
    ensures var v := Apply(w, Step(run, Ok, 0));
      AuditUntouched(w, v) && Closing(v) && run in v.runs && v.runs[run].RecheckBilling?
  {
    LastRecordedNext(w.log, Emptied(Drafting));
    LastRecordedNext(w.log + [Emptied(Drafting)], Rechecked(Drafting, run));
  }

  lemma LateBilling(w: World, run: nat)
    requires Closing(w) && run in w.runs && w.runs[run].RecheckBilling?
    ensures var v := Apply(w, Step(run, Ok, 0));
      AuditUntouched(w, v) && Closing(v) && run in v.runs && v.runs[run].Deleting?
  {
    LastRecordedNext(w.log, Emptied(Billing));
    LastRecordedNext(w.log + [Emptied(Billing)], Rechecked(Billing, run));
  }

  lemma LateDelete(w: World, run: nat)
    requires Closing(w) && run in w.runs && w.runs[run].Deleting?
    ensures var v := Apply(w, Step(run, Ok, 0)); AuditUntouched(w, v) && v.user.None?
  {
    LastRecordedNext(w.log, UserDeleted(run));
  }

  lemma RecheckAndDeleteAlone(w: World, run: nat)
    requires Closing(w) && run in w.runs && w.runs[run] == RecheckDrafting
    ensures var v := PlayOn(w, [Step(run, Ok, 0)] + ([Step(run, Ok, 0)] + ([Step(run, Ok, 0)] + [])));
      v.user.None? && AuditUntouched(w, v)
  {
    var s := Step(run, Ok, 0);
    LateDrafting(w, run);
    LateBilling(Apply(w, s), run);
    LateDelete(Apply(Apply(w, s), s), run);
    PlayOnFirst(w, s, [s] + ([s] + []));
    PlayOnFirst(Apply(w, s), s, [s] + []);
    PlayOnFirst(Apply(Apply(w, s), s), s, []);
  }

  lemma LateExpiry(w: World, seconds: nat, i: nat)
    requires DeleteRows(w.audit) == [w.clock] && seconds >= AUDIT_TTL
    requires i < |w.audit| && w.audit[i].kind == AccountDelete && w.audit[i].createdAt == w.clock
    ensures var v := Apply(Apply(w, Pass(seconds)), ExpireAudit(i));
      && v.user == w.user && v.runs == w.runs && v.clock == w.clock + seconds
      && !HasDeleteRow(v.audit) && LastRecorded(v.log) == LastRecorded(w.log)
  {
    ExpiryRemoves(w.audit, i);
    DeleteRowsAre(w.audit[..i] + w.audit[i + 1..]);
    LastRecordedNext(w.log, AuditExpired(w.clock));
  }

  lemma LateRow(w: World, run: nat, seconds: nat, i: nat)
    requires Closing(w) && run in w.runs && w.runs[run] == RecheckDrafting
    requires DeleteRows(w.audit) == [w.clock] && seconds >= AUDIT_TTL
    requires i < |w.audit| && w.audit[i].kind == AccountDelete && w.audit[i].createdAt == w.clock
    ensures var v := PlayOn(w, EndsLate(run, seconds, i));
      && v.user.None? && !HasDeleteRow(v.audit) && v.clock == w.clock + seconds
      && LastRecorded(v.log) == LastRecorded(w.log)
  {
    var late := Apply(w, Pass(seconds));
    var steps := [Step(run, Ok, 0)] + ([Step(run, Ok, 0)] + ([Step(run, Ok, 0)] + []));
    LateExpiry(w, seconds, i);
    RecheckAndDeleteAlone(Apply(late, ExpireAudit(i)), run);
    PlayOnFirst(w, Pass(seconds), [ExpireAudit(i)] + steps);
    PlayOnFirst(late, ExpireAudit(i), steps);
  }

  /**
   * The two years are exact: for any time from two years on between the row's writing and the end of the erase
   * there is a history after which the User record is gone and no account_delete row is there.
   */
  lemma RowCanExpireFirst(w: World, seconds: nat) returns (actions: seq<Action>)
    requires Initial(w) && !HasDeleteRow(w.audit) && seconds >= AUDIT_TTL
    ensures var v := Play(w, actions);
      && v.user.None? && !HasDeleteRow(v.audit)
      && LastRecorded(v.log).Some? && v.clock == LastRecorded(v.log).value + seconds
  {
    var opening := [SetLock(0), Start(1)];
    var more := CleanToRecheck(OpenedBy(w, opening), 1);
    var before := opening + more;
    PlayConcat(w, opening, more);
    InvPlay(w, before);
    RecordedAtRecheck(Play(w, before), 1);
    RowInvPlay(w, before);
    var i := RowStands(w, Play(w, before));
    LateRow(Play(w, before), 1, seconds, i);
    actions := before + EndsLate(1, seconds, i);
    PlayConcat(w, before, EndsLate(1, seconds, i));
  }

  /** The account closed, and a run about to read it. */
  function OpenedBy(w: World, opening: seq<Action>): (v: World)
    requires Initial(w) && opening == [SetLock(0), Start(1)]
    ensures v == Play(w, opening) && Closing(v) && v.clock == w.clock && 1 in v.runs && v.runs[1] == Reading
  {
    assert opening[..1] == [SetLock(0)] && opening[..1][..0] == [];
    assert Play(w, opening[..1]) == Apply(w, SetLock(0));
    Apply(Apply(w, SetLock(0)), Start(1))
  }

  // ----- the code of one run --------------------------------------------------------------------------------

  /** Nothing that `run` does itself. */
  predicate ByOthers(actions: seq<Action>, run: nat) {
    forall a :: a in actions ==> !((a.Start? || a.Step? || a.Crash?) && a.run == run)
  }

  lemma {:induction false} OthersKeepPc(w: World, actions: seq<Action>, run: nat)
    requires run in w.runs && ByOthers(actions, run)
    ensures run in PlayOn(w, actions).runs && PlayOn(w, actions).runs[run] == w.runs[run]
    decreases |actions|
  {
    if actions != [] {
      assert actions[0] in actions;
      OthersKeepPc(Apply(w, actions[0]), actions[1..], run);
    }
  }

  /** Where a call leads a run, whatever the stores hold. */
  predicate Leads(pc: Pc, outcome: Outcome, next: Pc) {
    match pc
    case Reading =>
      next.Finished? || next.RecheckDrafting? || (next.Calling? && 1 <= next.step <= AUDIT_DONE && next.call == 0)
    case Calling(step, call) =>
      next == if outcome != Ok then Failing
              else if call + 1 < Calls(step) then Calling(step, call + 1) else Saving(step)
    case Saving(step) => next == if outcome == Ok then AfterStage(step) else Failing
    case RecheckDrafting => if outcome == Ok then next.RecheckBilling? else next == Failing
    case RecheckBilling(_) => if outcome == Ok then next.Deleting? else next == Failing
    case Deleting(_, _) => next == if outcome == Ok then Finished(true) else Failing
    case Failing => next == Finished(false)
    case Finished(_) => next == pc
  }

  lemma StepLeads(w: World, run: nat, outcome: Outcome, now: int)
    requires run in w.runs
    ensures run in StepRun(w, run, outcome, now).runs
    ensures Leads(w.runs[run], outcome, StepRun(w, run, outcome, now).runs[run])
  {
  }

  /** What everyone else does before the k-th call of a run, how that call ends, and when. */
  datatype Turn = Turn(others: seq<Action>, outcome: Outcome, now: int)

  /** The shared stores, with the history that led here. */
  class Stores {
    var w: World
    ghost var trace: seq<Action>
    ghost const first: World

    ghost predicate Valid()
      reads this
    {
      w == Play(first, trace)
    }

    constructor (w: World)
      ensures Valid() && this.w == w && first == w && trace == []
    {
      this.w, first, trace := w, w, [];
    }

    /** One call of `run`, after whatever the others do first. */
    method Take(run: nat, turn: Turn)
      requires Valid() && run in w.runs && ByOthers(turn.others, run)
      modifies this
      ensures Valid() && trace == old(trace) + turn.others + [Step(run, turn.outcome, turn.now)]
      ensures run in w.runs && Leads(old(w.runs[run]), turn.outcome, w.runs[run])
    {
      PlayConcat(first, trace, turn.others);
      OthersKeepPc(w, turn.others, run);
      trace := trace + turn.others;
      w := PlayOn(w, turn.others);
      assert (trace + [Step(run, turn.outcome, turn.now)])[..|trace|] == trace;
      trace := trace + [Step(run, turn.outcome, turn.now)];
      StepLeads(w, run, turn.outcome, turn.now);
      w := Apply(w, Step(run, turn.outcome, turn.now));
    }

    /** step.run(): the calls of one step, stopping at the first that fails. */
    method RunStep(run: nat, step: nat, turns: nat -> Turn, from: nat) returns (ok: bool, k: nat)
      requires Valid() && run in w.runs && w.runs[run] == Calling(step, 0)
      requires forall k :: ByOthers(turns(k).others, run)
      modifies this
      ensures Valid() && old(trace) <= trace && run in w.runs
      ensures w.runs[run] == if ok then Saving(step) else Failing
    {
      var call := 0;
      k := from;
      while true
        invariant Valid() && old(trace) <= trace && call < Calls(step)
        invariant run in w.runs && w.runs[run] == Calling(step, call)
        decreases Calls(step) - call
      {
        Take(run, turns(k));
        ok := turns(k).outcome == Ok;
        k, call := k + 1, call + 1;
        if !ok || call == Calls(step) {
          return;
        }
      }
    }

    /** One iteration of the step loop: the step, then the stage write. */
    method RunAndSave(run: nat, step: nat, turns: nat -> Turn, from: nat) returns (ok: bool, k: nat)
      requires Valid() && run in w.runs && w.runs[run] == Calling(step, 0)
      requires forall k :: ByOthers(turns(k).others, run)
      modifies this
      ensures Valid() && old(trace) <= trace && run in w.runs
      ensures w.runs[run] == if ok then AfterStage(step) else Failing
    {
      ok, k := RunStep(run, step, turns, from);
      if ok {
        Take(run, turns(k));
        ok, k := turns(k).outcome == Ok, k + 1;
      }
    }

    /** The recheck of both services and the delete. */
    method RecheckAndDelete(run: nat, turns: nat -> Turn, from: nat) returns (ok: bool, k: nat)
      requires Valid() && run in w.runs && w.runs[run].RecheckDrafting?
      requires forall k :: ByOthers(turns(k).others, run)
      modifies this
      ensures Valid() && old(trace) <= trace && run in w.runs
      ensures w.runs[run] == if ok then Finished(true) else Failing
    {
      Take(run, turns(from));
      ok, k := turns(from).outcome == Ok, from + 1;
      if ok {
        Take(run, turns(k));
        ok, k := turns(k).outcome == Ok, k + 1;
      }
      if ok {
        Take(run, turns(k));
        ok, k := turns(k).outcome == Ok, k + 1;
      }
    }

    /**
     * runAccountErase (not a dry run), with other runs and requests acting between any two calls:
     * its result is `done` exactly as the state machine's run says, and the stores went through a
     * history of the machine, so every promise above holds of them. A failed call is followed by
     * recordFailedAttempt, which is best effort and never throws.
     */
    method RunAccountErase(run: nat, turns: nat -> Turn) returns (done: bool)
      requires Valid() && run !in w.runs
      requires forall k :: ByOthers(turns(k).others, run)
      modifies this
      ensures Valid() && old(trace) <= trace
      ensures run in w.runs && w.runs[run] == Finished(done)
    {
      assert (trace + [Start(run)])[..|trace|] == trace;
      w, trace := Apply(w, Start(run)), trace + [Start(run)];
      Take(run, turns(0));
      if w.runs[run].Finished? {
        return w.runs[run].done;
      }
      var from := if w.runs[run].Calling? then w.runs[run].step - 1 else AUDIT_DONE;
      var ok, k := true, 1;
      for step := 1 to AUDIT_DONE + 1
        invariant Valid() && old(trace) <= trace && run in w.runs
        invariant w.runs[run] == AfterStage(if step <= from then from else step - 1)
      {
        if step > from {
          ok, k := RunAndSave(run, step, turns, k);
          if !ok {
            Take(run, turns(k));
            return false;
          }
        }
      }
      ok, k := RecheckAndDelete(run, turns, k);
      if !ok {
        Take(run, turns(k));
        return false;
      }
      return true;
    }
  }
}
