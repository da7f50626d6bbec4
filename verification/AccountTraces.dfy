/**
 * What is left of an erased account in the auth service's own stores: the audit log, the sessions and
 * the Redis keys (eraseAuthData and eraseAudit in apps/auth/src/services/account-erase.service.ts), and
 * what the end of a run says.
 */
module AccountTraces {
  import opened AccountErase
  import opened Options

  /** The event is in the log after place k. */
  ghost predicate ComesAfter(log: seq<Event>, k: nat, e: Event) {
    exists j: nat :: k < j < |log| && log[j] == e
  }

  /** After each `erase` in the log there is a `wrote`. */
  ghost predicate Newer(log: seq<Event>, erase: Event, wrote: Event) {
    forall k: nat :: k < |log| && log[k] == erase ==> ComesAfter(log, k, wrote)
  }

  /** Payments and the deletion itself stay on record. */
  predicate StaysOnRecord(r: AuditRow) {
    r.kind == Payment || r.kind == AccountDelete
  }

  /** A row that the audit step's deletion should have removed, or whose details it should have. */
  predicate HasTrace(r: AuditRow) {
    !StaysOnRecord(r) || r.detailed
  }

  /** The call of the audit step that removes it. */
  function EraseOf(r: AuditRow): Event {
    if StaysOnRecord(r) then AuditStripped else AuditDropped
  }

  ghost predicate AuditNewer(w: World) {
    forall r :: r in w.audit && HasTrace(r) ==> Newer(w.log, EraseOf(r), AuditWrote(r))
  }

  // ----- every row with traces is newer than each audit step -----------------------------------------------

  lemma NewerGrows(log: seq<Event>, es: seq<Event>, erase: Event, wrote: Event)
    requires Newer(log, erase, wrote) && erase !in es
    ensures Newer(log + es, erase, wrote)
  {
    assert forall i :: |log| <= i < |log + es| ==> (log + es)[i] in es;
    forall k: nat | k < |log + es| && (log + es)[k] == erase ensures ComesAfter(log + es, k, wrote) {
      var j: nat :| k < j < |log| && log[j] == wrote;
      assert (log + es)[j] == wrote;
    }
  }

  lemma NewerWritten(log: seq<Event>, erase: Event, wrote: Event)
    requires erase != wrote
    ensures Newer(log + [wrote], erase, wrote)
  {
    assert (log + [wrote])[|log|] == wrote;
  }

  /** No row comes to the audit log but one without traces, and each erase that is logged was done. */
  ghost predicate AuditShrinks(w: World, v: World, es: seq<Event>) {
    && v.log == w.log + es
    && (forall r :: r in v.audit && HasTrace(r) ==> r in w.audit && EraseOf(r) !in es)
  }

  lemma ShrinkKeepsNewer(w: World, v: World, es: seq<Event>)
    requires AuditNewer(w) && AuditShrinks(w, v, es)
    ensures AuditNewer(v)
  {
    forall r | r in v.audit && HasTrace(r) ensures Newer(v.log, EraseOf(r), AuditWrote(r)) {
      NewerGrows(w.log, es, EraseOf(r), AuditWrote(r));
    }
  }

  lemma StripLeaves(w: World)
    ensures AuditShrinks(w, w.(audit := StripAudit(w.audit), log := w.log + [AuditStripped]), [AuditStripped])
  {
    forall r | r in StripAudit(w.audit) && HasTrace(r) ensures r in w.audit && EraseOf(r) != AuditStripped {
      var i :| 0 <= i < |w.audit| && StripAudit(w.audit)[i] == r;
      assert w.audit[i] in w.audit;
    }
  }

  lemma DropLeaves(w: World)
    ensures AuditShrinks(w, w.(audit := DropAudit(w.audit), log := w.log + [AuditDropped]), [AuditDropped])
  {
  }

  lemma RecordLeaves(w: World) returns (es: seq<Event>)
    ensures AuditShrinks(w, RecordDelete(w), es)
  {
    es := RecordDelete(w).log[|w.log|..];
  }

  /** The calls of a step on the audit log. */
  lemma EffectShrinks(w: World, step: nat, call: nat) returns (es: seq<Event>)
    ensures AuditShrinks(w, Effect(w, step, call), es)
  {
    var v := Effect(w, step, call);
    if step == DRAFTING_ERASED || step == BILLING_ERASED || step == AUTH_DATA_ERASED || call > 2 {
      es := v.log[|w.log|..];
    } else if call == 0 {
      es := RecordLeaves(w);
    } else if call == 1 {
      StripLeaves(w);
      es := [AuditStripped];
    } else {
      DropLeaves(w);
      es := [AuditDropped];
    }
  }

  lemma OtherStepShrinks(w: World, run: nat, outcome: Outcome, now: int) returns (es: seq<Event>)
    requires run in w.runs && !w.runs[run].Calling?
    ensures AuditShrinks(w, StepRun(w, run, outcome, now), es)
  {
    es := OtherStepLogs(w, run, outcome, now);
  }

  lemma StepKeepsNewer(w: World, run: nat, outcome: Outcome, now: int)
    requires AuditNewer(w) && run in w.runs
    ensures AuditNewer(StepRun(w, run, outcome, now))
  {
    var pc, v := w.runs[run], StepRun(w, run, outcome, now);
    if pc.Calling? {
      var u := Effect(w, pc.step, pc.call);
      var es := EffectShrinks(w, pc.step, pc.call);
      ShrinkKeepsNewer(w, u, es);
      ShrinkKeepsNewer(u, Log(u, StepDone(pc.step)), [StepDone(pc.step)]);
      CallTrail(w, run, outcome, now);
    } else {
      var es := OtherStepShrinks(w, run, outcome, now);
      ShrinkKeepsNewer(w, v, es);
    }
  }

  lemma WriteKeepsNewer(w: World, entry: AuditRow)
    requires AuditNewer(w)
    ensures AuditNewer(Apply(w, WriteAudit(entry)))
  {
    var v, e := Apply(w, WriteAudit(entry)), entry.(createdAt := w.clock);
    forall r | r in v.audit && HasTrace(r) ensures Newer(v.log, EraseOf(r), AuditWrote(r)) {
      if entry.kind != AccountDelete {
        if r == e {
          NewerWritten(w.log, EraseOf(r), AuditWrote(r));
        } else {
          NewerGrows(w.log, [AuditWrote(e)], EraseOf(r), AuditWrote(r));
        }
      }
    }
  }

  lemma OtherKeepsNewer(w: World, a: Action)
    requires AuditNewer(w) && !a.Step? && !a.WriteAudit?
    ensures AuditNewer(Apply(w, a))
  {
    ShrinkKeepsNewer(w, Apply(w, a), Apply(w, a).log[|w.log|..]);
  }

  lemma {:induction false} PlayKeepsNewer(w: World, actions: seq<Action>)
    requires w.log == []
    ensures AuditNewer(Play(w, actions))
  {
    if actions != [] {
      var n := |actions| - 1;
      var v, a := Play(w, actions[..n]), actions[n];
      PlayKeepsNewer(w, actions[..n]);
      if a.Step? {
        if a.run in v.runs {
          StepKeepsNewer(v, a.run, a.outcome, a.now);
        }
      } else if a.WriteAudit? {
        WriteKeepsNewer(v, a.entry);
      } else {
        OtherKeepsNewer(v, a);
      }
    }
  }

  // ----- no step is done without its erases -----------------------------------------------------------------

  /** What a run has erased by the call it is about to make. */
  ghost predicate RunErased(log: seq<Event>, pc: Pc) {
    pc.Calling? ==>
      && (pc.step == AUTH_DATA_ERASED && pc.call > 2 ==> Emptied(Sessions) in log)
      && (pc.step == AUDIT_DONE && pc.call > 1 ==> AuditStripped in log)
      && (pc.step == AUDIT_DONE && pc.call > 2 ==> AuditDropped in log)
  }

  /** What the steps of auth's own data erase. */
  function ErasesOf(step: nat): set<Event> {
    if step == AUTH_DATA_ERASED then {Emptied(Sessions), Emptied(RedisKeys)}
    else if step == AUDIT_DONE then {AuditStripped, AuditDropped}
    else {}
  }

  ghost predicate ErasedBefore(log: seq<Event>, i: nat) {
    i < |log| && log[i].StepDone? ==> forall e :: e in ErasesOf(log[i].step) ==> e in log[..i]
  }

  ghost predicate ErasedInv(w: World) {
    && (forall run :: run in w.runs ==> RunErased(w.log, w.runs[run]))
    && (forall i: nat :: ErasedBefore(w.log, i))
  }

  lemma InMore(log: seq<Event>, es: seq<Event>)
    ensures forall e :: e in log || e in es <==> e in log + es
  {
  }

  /** The log may grow by anything but a step's end, and other runs stay as they are. */
  lemma ErasedGrows(w: World, v: World, es: seq<Event>)
    requires ErasedInv(w) && v.log == w.log + es && forall e :: e in es ==> !e.StepDone?
    requires forall run :: run in v.runs ==>
               (run in w.runs && v.runs[run] == w.runs[run]) || RunErased(v.log, v.runs[run])
    ensures ErasedInv(v)
  {
    InMore(w.log, es);
    forall run | run in v.runs ensures RunErased(v.log, v.runs[run]) {
      assert run in w.runs ==> RunErased(w.log, w.runs[run]);
    }
    forall i: nat ensures ErasedBefore(v.log, i) {
      assert ErasedBefore(w.log, i);
      if |w.log| <= i < |v.log| {
        assert es[i - |w.log|] in es;
      } else if i < |w.log| {
        assert v.log[..i] == w.log[..i];
      }
    }
  }

  /** A step ends when its erases are in the log. */
  lemma StepEndKeeps(w: World, step: nat)
    requires ErasedInv(w) && forall e :: e in ErasesOf(step) ==> e in w.log
    ensures ErasedInv(Log(w, StepDone(step)))
  {
    var v := Log(w, StepDone(step));
    InMore(w.log, [StepDone(step)]);
    forall run | run in v.runs ensures RunErased(v.log, v.runs[run]) {
      assert RunErased(w.log, w.runs[run]);
    }
    forall i: nat ensures ErasedBefore(v.log, i) {
      assert ErasedBefore(w.log, i);
      if i < |v.log| {
        assert v.log[..i] == w.log[..i];
        assert w.log[..|w.log|] == w.log;
      }
    }
  }

  /** A run's call logs the erase it is. */
  lemma EffectErases(w: World, step: nat, call: nat) returns (es: seq<Event>)
    ensures var v := Effect(w, step, call);
      && v.log == w.log + es && v.runs == w.runs && (forall e :: e in es ==> !e.StepDone?)
      && (step == AUTH_DATA_ERASED && call == 2 ==> Emptied(Sessions) in es)
      && (step == AUTH_DATA_ERASED && call == 3 ==> Emptied(RedisKeys) in es)
      && (step == AUDIT_DONE && call == 1 ==> AuditStripped in es)
      && (step == AUDIT_DONE && call == 2 ==> AuditDropped in es)
  {
    es := Effect(w, step, call).log[|w.log|..];
  }

  /** Where a run goes after a call, its erases are in the log. */
  lemma CallKeepsErased(w: World, run: nat, outcome: Outcome, now: int)
    requires Inv(w) && ErasedInv(w) && run in w.runs && w.runs[run].Calling?
    ensures ErasedInv(StepRun(w, run, outcome, now))
  {
    var pc := w.runs[run];
    assert RunErased(w.log, pc) && RunSound(w.log, run, pc);
    if outcome == FailBefore {
      ErasedGrows(w, Goto(w, run, Failing), []);
    } else {
      var u := Effect(w, pc.step, pc.call);
      var es := EffectErases(w, pc.step, pc.call);
      InMore(w.log, es);
      ErasedGrows(w, u, es);
      CallGoesOn(u, run, pc, outcome);
    }
  }

  lemma CallGoesOn(u: World, run: nat, pc: Pc, outcome: Outcome)
    requires ErasedInv(u) && run in u.runs && pc.Calling? && pc.call < Calls(pc.step)
    requires pc.step == AUTH_DATA_ERASED && pc.call >= 2 ==> Emptied(Sessions) in u.log
    requires pc.step == AUTH_DATA_ERASED && pc.call == 3 ==> Emptied(RedisKeys) in u.log
    requires pc.step == AUDIT_DONE && pc.call >= 1 ==> AuditStripped in u.log
    requires pc.step == AUDIT_DONE && pc.call >= 2 ==> AuditDropped in u.log
    ensures ErasedInv(Goto(u, run, Failing))
    ensures pc.call + 1 < Calls(pc.step) ==> ErasedInv(Goto(u, run, Calling(pc.step, pc.call + 1)))
    ensures pc.call + 1 == Calls(pc.step) ==> ErasedInv(Goto(Log(u, StepDone(pc.step)), run, Saving(pc.step)))
  {
    ErasedGrows(u, Goto(u, run, Failing), []);
    if pc.call + 1 < Calls(pc.step) {
      ErasedGrows(u, Goto(u, run, Calling(pc.step, pc.call + 1)), []);
    } else {
      StepEndKeeps(u, pc.step);
      var v := Log(u, StepDone(pc.step));
      ErasedGrows(v, Goto(v, run, Saving(pc.step)), []);
    }
  }

  /** What else happens ends no step, and starts a step at its first call. */
  ghost predicate ErasesNothing(w: World, v: World, es: seq<Event>) {
    && v.log == w.log + es && (forall e :: e in es ==> !e.StepDone?)
    && forall run :: run in v.runs ==>
         (run in w.runs && v.runs[run] == w.runs[run]) || RunErased(v.log, v.runs[run])
  }

  lemma OtherStepErases(w: World, run: nat, outcome: Outcome, now: int) returns (es: seq<Event>)
    requires run in w.runs && !w.runs[run].Calling?
    ensures ErasesNothing(w, StepRun(w, run, outcome, now), es)
  {
    es := OtherStepLogs(w, run, outcome, now);
    OneRunGoes(w, run, outcome, now);
  }

  lemma OneRunGoes(w: World, run: nat, outcome: Outcome, now: int)
    requires run in w.runs && !w.runs[run].Calling?
    ensures var v := StepRun(w, run, outcome, now);
      && (v == w || v.runs == w.runs[run := v.runs[run]])
      && (run in v.runs && v.runs[run].Calling? ==> v.runs[run].call == 0)
  {
  }

  lemma OtherErases(w: World, a: Action) returns (es: seq<Event>)
    requires !a.Step?
    ensures ErasesNothing(w, Apply(w, a), es)
  {
    es := Apply(w, a).log[|w.log|..];
  }

  lemma {:induction false} PlayKeepsErased(w: World, actions: seq<Action>)
    requires Initial(w)
    ensures ErasedInv(Play(w, actions))
  {
    if actions != [] {
      var n := |actions| - 1;
      var v, a := Play(w, actions[..n]), actions[n];
      PlayKeepsErased(w, actions[..n]);
      InvPlay(w, actions[..n]);
      if a.Step? && a.run in v.runs && v.runs[a.run].Calling? {
        CallKeepsErased(v, a.run, a.outcome, a.now);
      } else if a.Step? {
        if a.run in v.runs {
          var es := OtherStepErases(v, a.run, a.outcome, a.now);
          ErasedGrows(v, Apply(v, a), es);
        }
      } else {
        var es := OtherErases(v, a);
        ErasedGrows(v, Apply(v, a), es);
      }
    }
  }

  // ----- what is left ---------------------------------------------------------------------------------------

  /** The erase is in the log before the deleting run's rechecks, and `wrote` comes after it. */
  ghost predicate ErasedThenWrote(log: seq<Event>, erase: Event, wrote: Event) {
    exists d: nat, b: nat, k: nat, e: nat, j: nat {:trigger DeletedAt(log, d, b, k), log[e], log[j]} ::
      DeletedAt(log, d, b, k) && e < d && log[e] == erase && e < j < |log| && log[j] == wrote
  }

  /** Before the User record went, the step's erases were done. */
  lemma ErasedBeforeDeletion(v: World, step: nat, erase: Event) returns (d: nat, b: nat, k: nat, e: nat)
    requires Inv(v) && ErasedInv(v) && v.user.None? && 1 <= step <= AUDIT_DONE && erase in ErasesOf(step)
    ensures DeletedAt(v.log, d, b, k) && e < d && v.log[e] == erase
  {
    d, b, k := InvDeletedAt(v);
    assert StepDone(step) in v.log[..d];
    var i: nat :| i < d && v.log[..d][i] == StepDone(step);
    assert ErasedBefore(v.log, i) && v.log[i] == StepDone(step);
    e :| e < i && v.log[..i][e] == erase;
  }

  /**
   * Once the User record is gone, each audit row of a kind that is not kept was written after an audit
   * step deleted those rows, and each kept row with details after one took the details off; indeed after
   * every one that did.
   */
  lemma AuditLeftIsNewer(w: World, actions: seq<Action>, r: AuditRow)
    requires Initial(w) && Play(w, actions).user.None? && r in Play(w, actions).audit && HasTrace(r)
    ensures ErasedThenWrote(Play(w, actions).log, EraseOf(r), AuditWrote(r))
    ensures Newer(Play(w, actions).log, EraseOf(r), AuditWrote(r))
  {
    var v := Play(w, actions);
    InvPlay(w, actions);
    PlayKeepsErased(w, actions);
    PlayKeepsNewer(w, actions);
    var d, b, k, e := ErasedBeforeDeletion(v, AUDIT_DONE, EraseOf(r));
    assert ComesAfter(v.log, e, AuditWrote(r));
  }

  /** And each session or Redis key that is left was written after the step that emptied those stores. */
  lemma KeysLeftAreNewer(w: World, actions: seq<Action>, s: Store, row: nat)
    requires Initial(w) && Play(w, actions).user.None? && (s == Sessions || s == RedisKeys)
    requires row in RowsOf(Play(w, actions).rows, s)
    ensures ErasedThenWrote(Play(w, actions).log, Emptied(s), Wrote(s, row))
  {
    var v := Play(w, actions);
    InvPlay(w, actions);
    PlayKeepsErased(w, actions);
    RowsFollowPlay(w, actions);
    var d, b, k, e := ErasedBeforeDeletion(v, AUTH_DATA_ERASED, Emptied(s));
    LeftWasWritten(v.log, s, w.rows, e, row);
  }

  // ----- where a run resumes --------------------------------------------------------------------------------------

  /** The step that a run begins with which finds the stage, or the rechecks when none is left. */
  predicate BeginsAfter(pc: Pc, stage: nat) {
    if stage < 4 then pc == Calling(stage + 1, 0) else pc == RecheckDrafting
  }

  /**
   * A run that has completed a step stores it, whatever became of the answer: the next run to read the User
   * begins with the step after it.
   */
  lemma StepIsStored(w: World, run: nat, outcome: Outcome, next: nat, now: int)
    requires run in w.runs && w.runs[run].Saving? && outcome != FailBefore && next !in w.runs
    requires w.user.Some? && w.user.value.erasure.Some?
    ensures var v := PlayOn(w, [Step(run, outcome, now), Start(next), Step(next, Ok, now)]);
      && v.user.Some? && v.user.value == w.user.value.(erasure := v.user.value.erasure)
      && v.user.value.erasure == Some(w.user.value.erasure.value.(stage := w.runs[run].step))
      && next in v.runs && BeginsAfter(v.runs[next], w.runs[run].step)
  {
    var a, b, c := Step(run, outcome, now), Start(next), Step(next, Ok, now);
    assert [a, b, c][1..] == [b, c] && [b, c][1..] == [c] && [c][1..] == [];
    assert PlayOn(w, [a, b, c]) == PlayOn(Apply(w, a), [b, c]);
    assert PlayOn(Apply(w, a), [b, c]) == PlayOn(Apply(Apply(w, a), b), [c]);
    assert PlayOn(Apply(Apply(w, a), b), [c]) == Apply(Apply(Apply(w, a), b), c);
  }

  // ----- what stays on record -------------------------------------------------------------------------------------

  /** A payment of that time is on record, with its details or without. */
  predicate IsOnRecord(audit: seq<AuditRow>, at: int) {
    exists e :: e in audit && e.kind == Payment && e.createdAt == at
  }

  lemma {:induction false} StripKeepsRecord(audit: seq<AuditRow>, at: int)
    requires IsOnRecord(audit, at)
    ensures IsOnRecord(StripAudit(audit), at)
  {
    var e :| e in audit && e.kind == Payment && e.createdAt == at;
    var i :| 0 <= i < |audit| && audit[i] == e;
    assert StripAudit(audit)[i] in StripAudit(audit);
  }

  lemma DropKeepsRecord(audit: seq<AuditRow>, at: int)
    requires IsOnRecord(audit, at)
    ensures IsOnRecord(DropAudit(audit), at)
  {
    var e :| e in audit && e.kind == Payment && e.createdAt == at;
    assert e in DropAudit(audit);
  }

  lemma AppendKeepsRecord(audit: seq<AuditRow>, r: AuditRow, at: int)
    requires IsOnRecord(audit, at)
    ensures IsOnRecord(audit + [r], at)
  {
    var e :| e in audit && e.kind == Payment && e.createdAt == at;
    assert e in audit + [r];
  }

  lemma ExpiryKeepsRecord(audit: seq<AuditRow>, i: nat, at: int)
    requires IsOnRecord(audit, at) && i < |audit| && audit[i].createdAt != at
    ensures IsOnRecord(audit[..i] + audit[i + 1..], at)
  {
    var e :| e in audit && e.kind == Payment && e.createdAt == at;
    var j :| 0 <= j < |audit| && audit[j] == e;
    assert e in (if j < i then audit[..i] else audit[i + 1..]);
  }

  lemma EffectKeepsRecord(w: World, step: nat, call: nat, at: int)
    requires IsOnRecord(w.audit, at)
    ensures IsOnRecord(Effect(w, step, call).audit, at)
  {
    if call == 0 {
      AppendKeepsRecord(w.audit, AuditRow(AccountDelete, false, w.clock), at);
    } else if call == 1 {
      StripKeepsRecord(w.audit, at);
    } else if call == 2 {
      DropKeepsRecord(w.audit, at);
    }
  }

  lemma StepKeepsRecord(w: World, run: nat, outcome: Outcome, now: int, at: int)
    requires run in w.runs && IsOnRecord(w.audit, at)
    ensures IsOnRecord(StepRun(w, run, outcome, now).audit, at)
  {
    match w.runs[run]
    case Calling(step, call) => EffectKeepsRecord(w, step, call, at);
    case _ =>
  }

  lemma ApplyKeepsRecord(w: World, a: Action, at: int)
    requires IsOnRecord(w.audit, at)
    ensures Apply(w, a).clock < at + AUDIT_TTL ==> IsOnRecord(Apply(w, a).audit, at)
  {
    match a
    case Step(run, outcome, now) =>
      if run in w.runs {
        StepKeepsRecord(w, run, outcome, now, at);
      }
    case WriteAudit(e) => AppendKeepsRecord(w.audit, e.(createdAt := w.clock), at);
    case ExpireAudit(i) =>
      if i < |w.audit| && w.audit[i].createdAt != at {
        ExpiryKeepsRecord(w.audit, i, at);
      }
    case _ =>
  }

  lemma ClockForward(w: World, a: Action)
    ensures Apply(w, a).clock >= w.clock
  {
    if a.Step? && a.run in w.runs && w.runs[a.run].Calling? {
      EffectClock(w, w.runs[a.run].step, w.runs[a.run].call);
    }
  }

  lemma EffectClock(w: World, step: nat, call: nat)
    ensures Effect(w, step, call).clock == w.clock
  {
  }

  /** No erase, however often it runs, takes a payment off the record; only its two years do. */
  lemma {:induction false} PaymentsStay(w: World, actions: seq<Action>, at: int)
    requires IsOnRecord(w.audit, at) && Play(w, actions).clock < at + 2 * 365 * 24 * 60 * 60
    ensures IsOnRecord(Play(w, actions).audit, at)
  {
    if actions != [] {
      var n := |actions| - 1;
      ClockForward(Play(w, actions[..n]), actions[n]);
      PaymentsStay(w, actions[..n], at);
      ApplyKeepsRecord(Play(w, actions[..n]), actions[n], at);
    }
  }

  /**
   * A run that finds no User record any more says it is done exactly when the last that happened to the
   * account's deletion row is that it was recorded.
   */
  lemma GoneAnswer(w: World, actions: seq<Action>, run: nat, now: int)
    requires Initial(w) && !HasDeleteRow(w.audit)
    requires var v := Play(w, actions); v.user.None? && run in v.runs && v.runs[run] == Reading
    ensures var v := Play(w, actions);
      Apply(v, Step(run, Ok, now)).runs[run]
      == Finished(LastAudit(v.log).Some? && LastAudit(v.log).value.AuditRecorded?)
  {
    DeleteRowIffStanding(w, actions);
  }

  // ----- what the end of a run says ----------------------------------------------------------------------------

  /** A run that says it is done found the User record gone, or deleted it; a locked account stays locked. */
  ghost predicate DoneIsGone(w: World) {
    && (forall run :: run in w.runs && w.runs[run] == Finished(true) ==> w.user.None?)
    && (LockSet in w.log && w.user.Some? ==> w.user.value.erasure.Some?)
  }

  lemma ApplyKeepsGone(w: World, a: Action)
    requires Inv(w) && DoneIsGone(w)
    ensures DoneIsGone(Apply(w, a)) && (w.user.None? ==> Apply(w, a).user.None?)
  {
    if a.Step? {
      if a.run in w.runs {
        StepKeepsGone(w, a.run, a.outcome, a.now);
      }
    } else {
      LogsNoLock(w, a);
    }
  }

  lemma LogsNoLock(w: World, a: Action)
    requires !a.Step?
    ensures w.log <= Apply(w, a).log
    ensures LockSet in Apply(w, a).log ==> LockSet in w.log || Apply(w, a).user != w.user
  {
    var v := Apply(w, a);
    assert v.log == w.log + v.log[|w.log|..];
  }

  lemma StepKeepsGone(w: World, run: nat, outcome: Outcome, now: int)
    requires Inv(w) && DoneIsGone(w) && run in w.runs
    ensures DoneIsGone(StepRun(w, run, outcome, now)) && (w.user.None? ==> StepRun(w, run, outcome, now).user.None?)
  {
    var v := StepRun(w, run, outcome, now);
    assert RunSound(w.log, run, w.runs[run]);
    StepLocksNothing(w, run, outcome, now);
    StepEnds(w, run, outcome, now);
  }

  lemma StepLocksNothing(w: World, run: nat, outcome: Outcome, now: int)
    requires run in w.runs
    ensures var v := StepRun(w, run, outcome, now);
      && (LockSet in v.log ==> LockSet in w.log)
      && (v.user.Some? ==> w.user.Some? && (w.user.value.erasure.Some? <==> v.user.value.erasure.Some?))
  {
    var v := StepRun(w, run, outcome, now);
    var es := StepRunGrows(w, run, outcome, now);
    StepLogsNoLock(w, run, outcome, now, es);
    InMore(w.log, es);
  }

  lemma StepLogsNoLock(w: World, run: nat, outcome: Outcome, now: int, es: seq<Event>)
    requires run in w.runs && StepRun(w, run, outcome, now).log == w.log + es
    ensures LockSet !in es
  {
    var pc, v := w.runs[run], StepRun(w, run, outcome, now);
    assert es == v.log[|w.log|..];
    if pc.Calling? {
      CallTrail(w, run, outcome, now);
      EffectLogsNoLock(w, pc.step, pc.call);
    } else {
      var logged := OtherStepLogs(w, run, outcome, now);
      assert logged == es;
    }
  }

  lemma EffectLogsNoLock(w: World, step: nat, call: nat)
    ensures w.log <= Effect(w, step, call).log && LockSet !in Effect(w, step, call).log[|w.log|..]
  {
  }

  lemma OthersStay(w: World, run: nat, outcome: Outcome, now: int)
    requires run in w.runs
    ensures var v := StepRun(w, run, outcome, now);
      run in v.runs && v.runs == w.runs[run := v.runs[run]]
  {
    var pc := w.runs[run];
    if pc.Calling? {
      var es := EffectErases(w, pc.step, pc.call);
    }
  }

  /** A run ends with `done` when it finds no User record, or deletes one that is locked. */
  lemma StepEnds(w: World, run: nat, outcome: Outcome, now: int)
    requires run in w.runs
    ensures var v := StepRun(w, run, outcome, now);
      && run in v.runs && (forall x :: x in v.runs && x != run ==> x in w.runs && v.runs[x] == w.runs[x])
      && (v.runs[run] == Finished(true) && w.runs[run] != Finished(true) ==>
            v.user.None? || (w.runs[run].Deleting? && w.user.Some? && w.user.value.erasure.None?))
  {
    OthersStay(w, run, outcome, now);
    StepLeads(w, run, outcome, now);
    if w.runs[run].Reading? || w.runs[run].Deleting? {
      EndsAt(w, run, outcome, now);
    }
  }

  lemma EndsAt(w: World, run: nat, outcome: Outcome, now: int)
    requires run in w.runs && (w.runs[run].Reading? || w.runs[run].Deleting?)
    ensures var v := StepRun(w, run, outcome, now);
      run in v.runs && (v.runs[run] == Finished(true) ==>
        v.user.None? || (w.runs[run].Deleting? && w.user.Some? && w.user.value.erasure.None?))
  {
  }

  /** In every history: a run answers `done` only when the User record is gone. */
  lemma {:induction false} DoneMeansGone(w: World, actions: seq<Action>)
    requires Initial(w)
    ensures DoneIsGone(Play(w, actions))
  {
    if actions != [] {
      var n := |actions| - 1;
      DoneMeansGone(w, actions[..n]);
      InvPlay(w, actions[..n]);
      ApplyKeepsGone(Play(w, actions[..n]), actions[n]);
    }
  }

  predicate IsCall(pc: Pc) {
    pc.Calling? || pc.Saving? || pc.RecheckDrafting? || pc.RecheckBilling? || pc.Deleting?
  }

  /**
   * A call that fails ends its run without `done`, and the attempt is recorded, if the User record and
   * its lock are still there: one attempt more, made now. The stage stays where the run left it.
   */
  lemma FailureIsRecorded(w: World, run: nat, outcome: Outcome, at: int, now: int)
    requires run in w.runs && IsCall(w.runs[run]) && outcome != Ok
    ensures var failed := StepRun(w, run, outcome, at);
      var v := Apply(failed, Step(run, Ok, now));
      && run in v.runs && v.runs[run] == Finished(false)
      && (failed.user.Some? && failed.user.value.erasure.Some? ==>
            var e := failed.user.value.erasure.value;
            v.user == Some(User(failed.user.value.isActive,
                                Some(Erasure(e.requestedAt, e.stage, Some(now), e.attempts + 1)))))
  {
  }
}
