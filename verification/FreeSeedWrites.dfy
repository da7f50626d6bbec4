/**
 * When the free-seed backfill writes a user, and when it does not (applyFilter and applyOne in
 * apps/auth/scripts/backfill-free-seed.ts).
 */
module FreeSeedWrites {
  import opened FreeSeed

  // ----- only an eligible user is seeded -----------------------------------------------------------------

  /** Action k of the history is the write that sets freeSeedAt: the guards match, and nobody wrote before. */
  predicate SeedsAt(start: World, actions: seq<Action>, k: nat) {
    && k < |actions| && actions[k].WriteUser?
    && var w := Play(start, actions[..k]);
      && w.eligible && !w.seededAt && actions[k].job < |w.jobs| && w.jobs[actions[k].job].Grouped?
      && Next(w, actions[k]).won == By(w.jobs[actions[k].job].group, w.jobs[actions[k].job].drift)
  }

  ghost predicate WasSeeded(start: World, actions: seq<Action>) {
    exists k: nat :: SeedsAt(start, actions, k)
  }

  lemma SeededStays(start: World, actions: seq<Action>)
    requires actions != [] && WasSeeded(start, actions[..|actions| - 1])
    ensures WasSeeded(start, actions)
  {
    var before := actions[..|actions| - 1];
    var k: nat :| SeedsAt(start, before, k);
    assert before[..k] == actions[..k];
    assert SeedsAt(start, actions, k);
  }

  lemma OneActionSeeds(w: World, a: Action)
    ensures w.seededAt ==> Next(w, a).seededAt && Next(w, a).won == w.won
    ensures !w.seededAt && Next(w, a).seededAt ==>
              && a.WriteUser? && w.eligible && a.job < |w.jobs| && w.jobs[a.job].Grouped?
              && Next(w, a).won == By(w.jobs[a.job].group, w.jobs[a.job].drift)
  {
  }

  /** In every history freeSeedAt was set by one write, made while the apply-time guards matched. */
  lemma {:induction false} SeededWhileEligible(start: World, actions: seq<Action>)
    requires Fresh(start) && Play(start, actions).seededAt
    ensures WasSeeded(start, actions)
  {
    var n := |actions| - 1;
    var w := Play(start, actions[..n]);
    OneActionSeeds(w, actions[n]);
    if w.seededAt {
      SeededWhileEligible(start, actions[..n]);
      SeededStays(start, actions);
    } else {
      assert SeedsAt(start, actions, n);
    }
  }

  // ----- what a run does for each user -----------------------------------------------------------------------

  /** What a run should do for a user whose ledger leaves so much of the balance unexplained. */
  datatype Deed = Seed | RowOnly | Leave

  function DeedFor(start: World): Deed {
    if start.seededAt || start.row || !start.eligible then Leave
    else if start.topup == start.others then Seed
    else if start.topup == start.others + 10 then RowOnly
    else Leave
  }

  /** The run alone, from its first read to its row. */
  function Run(): seq<Action> {
    [ReadUser(0)] + [CheckRow(0)] + [SumLedger(0)] + [WriteUser(0)] + [InsertRow(0)]
  }

  lemma RunPlays(w: World)
    ensures Play(w, Run())
         == Next(Next(Next(Next(Next(w, ReadUser(0)), CheckRow(0)), SumLedger(0)), WriteUser(0)), InsertRow(0))
  {
    PlayOne(w, ReadUser(0));
    PlayMore(w, [ReadUser(0)], CheckRow(0));
    PlayMore(w, [ReadUser(0)] + [CheckRow(0)], SumLedger(0));
    PlayMore(w, [ReadUser(0)] + [CheckRow(0)] + [SumLedger(0)], WriteUser(0));
    PlayMore(w, [ReadUser(0)] + [CheckRow(0)] + [SumLedger(0)] + [WriteUser(0)], InsertRow(0));
  }

  /**
   * With nothing in between, a run gives the seed and its row to an eligible user without either, the row
   * alone to one whose seed landed, and nothing to anyone else; after it balance and ledger agree.
   */
  lemma RunDoesTheDeed(start: World)
    requires |start.jobs| == 1 && start.jobs[0] == Idle
    ensures |Play(start, Run()).jobs| == 1
    ensures var w, deed := Play(start, Run()), DeedFor(start);
      && w.topup == start.topup + (if deed == Seed then 10 else 0)
      && w.row == (start.row || deed != Leave) && w.seededAt == (start.seededAt || deed != Leave)
      && w.others == start.others && w.eligible == start.eligible
      && (w.jobs[0].Done? <==> deed != Leave)
      && (deed != Leave ==> w.topup == LedgerSum(w))
  {
    RunPlays(start);
    RunReads(start);
  }

  /** What the reads leave for the write to do. */
  lemma RunReads(start: World)
    requires |start.jobs| == 1 && start.jobs[0] == Idle
    ensures var w := Next(Next(Next(start, ReadUser(0)), CheckRow(0)), SumLedger(0));
      w == start.(jobs := w.jobs) && |w.jobs| == 1
      && (w.jobs[0].Grouped? <==>
            !start.seededAt && !start.row && (start.topup == start.others || start.topup == start.others + 10))
      && (w.jobs[0].Grouped? ==> w.jobs[0] == Grouped(if start.topup == start.others then A else B, 0))
      && !w.jobs[0].Owed?
  {
  }

  /** A write that comes when the guards no longer match, or after another's, changes nothing: 'gone'. */
  lemma GoneWritesNothing(w: World, job: nat)
    requires job < |w.jobs| && w.jobs[job].Grouped? && (w.seededAt || !w.eligible)
    ensures Next(w, WriteUser(job)) == w.(jobs := w.jobs[job := Idle])
  {
  }
}
