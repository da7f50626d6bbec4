/**
 * The free-seed backfill for one user (apps/auth/scripts/backfill-free-seed.ts), as overlapping runs
 * with stops anywhere, while the user spends and is granted Ink. Each read or write of the database is
 * one action. The cursor's read of the balance and the later read of the ledger are two actions.
 */
module FreeSeed {

  const UNITS: int := 10

  /** A: the seed never landed. B: it landed and only its ledger row is missing. */
  datatype Group = A | B

  /** What a run knows of the user; `seen` is the balance it read, when `moved` had moved. */
  datatype Job =
    | Idle
    | Read(seen: int, moved: int)
    | Checked(seen: int, moved: int)     // found no free_seed row
    | Grouped(group: Group, drift: int)  // summed the ledger, `drift` having moved since the first read
    | Owed(group: Group, drift: int)     // wrote the user, not yet the row
    | Done(group: Group, drift: int)     // applyOne returned 'done'

  /**
   * The user: its balance, the deltas of its top-up ledger rows but for the free_seed row, whether
   * that row is there, whether freeSeedAt is set, whether the other guards match; what spends and
   * grants have moved in all; and the write that set freeSeedAt, if one did.
   */
  datatype World = World(topup: int, others: int, row: bool, seededAt: bool, eligible: bool, moved: int,
                         won: Won, jobs: seq<Job>)

  datatype Won = Nobody | By(group: Group, drift: int)

  /** topupLedgerSum */
  function LedgerSum(w: World): int {
    w.others + if w.row then UNITS else 0
  }

  datatype Action =
    | ReadUser(job: nat)
    | CheckRow(job: nat)
    | SumLedger(job: nat)
    | WriteUser(job: nat)
    | InsertRow(job: nat)
    | Stop(job: nat)
    | Heal                     // grantSignupBonus writes the row of a seeded user
    | Move(units: int)         // a spend or a grant, with its ledger row
    | SetEligible(now: bool)

  /** The two exact shapes are acted on, anything else is left alone. */
  function GroupOf(unexplained: int, drift: int): Job {
    if unexplained == 0 then Grouped(A, drift) else if unexplained == UNITS then Grouped(B, drift) else Idle
  }

  function WithJob(w: World, job: nat, j: Job): World
    requires job < |w.jobs|
  {
    w.(jobs := w.jobs[job := j])
  }

  /** One action; one that cannot happen changes nothing. */
  function Next(w: World, a: Action): World {
    match a
    case ReadUser(job) =>
      if job < |w.jobs| && !w.seededAt then WithJob(w, job, Read(w.topup, w.moved)) else w
    case CheckRow(job) =>
      if job < |w.jobs| && w.jobs[job].Read? && !w.row
      then WithJob(w, job, Checked(w.jobs[job].seen, w.jobs[job].moved)) else w
    case SumLedger(job) =>
      if job < |w.jobs| && w.jobs[job].Checked?
      then WithJob(w, job, GroupOf(w.jobs[job].seen - LedgerSum(w), w.moved - w.jobs[job].moved)) else w
    case WriteUser(job) =>
      if job < |w.jobs| && w.jobs[job].Grouped? then
        var j := w.jobs[job];
        if w.seededAt || !w.eligible then WithJob(w, job, Idle)
        else WithJob(w.(seededAt := true, won := By(j.group, j.drift),
                        topup := w.topup + if j.group == A then UNITS else 0), job, Owed(j.group, j.drift))
      else w
    case InsertRow(job) =>
      if job < |w.jobs| && w.jobs[job].Owed?
      then WithJob(w.(row := true), job, Done(w.jobs[job].group, w.jobs[job].drift)) else w
    case Stop(job) =>
      if job < |w.jobs| then WithJob(w, job, Idle) else w
    case Heal =>
      if w.seededAt then w.(row := true) else w
    case Move(units) =>
      w.(topup := w.topup + units, others := w.others + units, moved := w.moved + units)
    case SetEligible(now) => w.(eligible := now)
  }

  function Play(w: World, actions: seq<Action>): World {
    if actions == [] then w else Next(Play(w, actions[..|actions| - 1]), actions[|actions| - 1])
  }

  /** A candidate that no run has looked at yet; it may have an old free_seed row. */
  predicate Fresh(w: World) {
    !w.seededAt && w.won == Nobody && w.moved == 0 && forall k :: 0 <= k < |w.jobs| ==> w.jobs[k] == Idle
  }

  // ----- the invariant ----------------------------------------------------------------------------------

  /** The Ink of the balance that the ledger did not explain at the start: 0 in case A, 10 in case B. */
  function Unexplained(start: World): int {
    start.topup - start.others
  }

  /** With this group and this drift, the gap the run saw was the user's gap less the drift. */
  predicate Fits(start: World, group: Group, drift: int) {
    Unexplained(start) == drift + if group == A then 0 else UNITS
  }

  predicate JobFits(start: World, w: World, j: Job) {
    match j
    case Idle => true
    case Read(seen, moved) => seen == start.topup + moved
    case Checked(seen, moved) => seen == start.topup + moved && (w.won == Nobody ==> !start.row)
    case Grouped(group, drift) => w.won == Nobody ==> !start.row && Fits(start, group, drift)
    case Owed(group, drift) => w.won == By(group, drift)
    case Done(group, drift) => w.won == By(group, drift) && w.row
  }

  predicate Inv(start: World, w: World) {
    && w.others == start.others + w.moved
    && w.seededAt == (w.won != Nobody)
    && w.topup == start.topup + w.moved + (if w.won != Nobody && w.won.group == A then UNITS else 0)
    && (w.won == Nobody ==> w.row == start.row)
    && (w.won != Nobody ==> !start.row && Fits(start, w.won.group, w.won.drift))
    && (forall k :: 0 <= k < |w.jobs| ==> JobFits(start, w, w.jobs[k]))
  }

  lemma NextKeepsInv(start: World, w: World, a: Action)
    requires Inv(start, w)
    ensures Inv(start, Next(w, a))
  {
  }

  lemma {:induction false} PlayKeepsInv(start: World, actions: seq<Action>)
    requires Fresh(start)
    ensures Inv(start, Play(start, actions))
  {
    if actions != [] {
      var n := |actions| - 1;
      PlayKeepsInv(start, actions[..n]);
      NextKeepsInv(start, Play(start, actions[..n]), actions[n]);
    }
  }

  // ----- what it means ------------------------------------------------------------------------------------

  /** Whatever runs there are, the user gains the seed once at most, beyond what spends and grants moved. */
  lemma GainsAtMostOnce(start: World, actions: seq<Action>)
    requires Fresh(start)
    ensures var w := Play(start, actions);
      start.topup + w.moved <= w.topup <= start.topup + w.moved + UNITS
  {
    PlayKeepsInv(start, actions);
  }

  /**
   * When applyOne has returned 'done', what the balance and the ledger differ by is what moved between
   * the run's two reads: the two agree if and only if nothing did, or it cancelled out.
   */
  lemma DoneLeavesTheDrift(start: World, actions: seq<Action>, job: nat)
    requires Fresh(start) && job < |Play(start, actions).jobs| && Play(start, actions).jobs[job].Done?
    ensures var w := Play(start, actions);
      && w.topup - LedgerSum(w) == w.jobs[job].drift
      && (w.topup == LedgerSum(w) <==> w.jobs[job].drift == 0)
  {
    PlayKeepsInv(start, actions);
    assert JobFits(start, Play(start, actions), Play(start, actions).jobs[job]);
  }

  /** With no drift the group is the right one: A when the seed never landed, B when it had. */
  lemma GroupIsRight(start: World, actions: seq<Action>)
    requires Fresh(start) && Play(start, actions).won != Nobody
    ensures var won := Play(start, actions).won;
      won.drift == 0 ==>
        && (won.group == A <==> Unexplained(start) == 0)
        && (won.group == B <==> Unexplained(start) == UNITS)
  {
    PlayKeepsInv(start, actions);
  }

  /** At most one write of one run sets freeSeedAt, and after it no run is done with another group. */
  lemma OneWriteWins(start: World, actions: seq<Action>, j: nat, k: nat)
    requires Fresh(start) && j < |Play(start, actions).jobs| && k < |Play(start, actions).jobs|
    requires var w := Play(start, actions); (w.jobs[j].Owed? || w.jobs[j].Done?) && (w.jobs[k].Owed? || w.jobs[k].Done?)
    ensures var w := Play(start, actions); w.jobs[j].group == w.jobs[k].group && w.jobs[j].drift == w.jobs[k].drift
  {
    PlayKeepsInv(start, actions);
    assert JobFits(start, Play(start, actions), Play(start, actions).jobs[j]);
    assert JobFits(start, Play(start, actions), Play(start, actions).jobs[k]);
  }

  /** A run that is cut off after its write is made good by the next sign-in. */
  lemma HealReconciles(start: World, actions: seq<Action>)
    requires Fresh(start) && Play(start, actions).seededAt
    ensures var w := Next(Play(start, actions), Heal);
      Play(start, actions).won != Nobody && w.topup - LedgerSum(w) == Play(start, actions).won.drift
  {
    PlayKeepsInv(start, actions);
  }

  // ----- the drift is real ------------------------------------------------------------------------------------

  lemma PlayOne(w: World, a: Action)
    ensures Play(w, [a]) == Next(w, a)
  {
    assert [a][..0] == [];
  }

  lemma PlayMore(w: World, actions: seq<Action>, a: Action)
    ensures Play(w, actions + [a]) == Next(Play(w, actions), a)
  {
    assert (actions + [a])[..|actions|] == actions;
  }

  /** A run whose two reads have `units` moved between them. */
  function SplitRun(units: int): seq<Action> {
    [ReadUser(0)] + [Move(units)] + [CheckRow(0)] + [SumLedger(0)] + [WriteUser(0)] + [InsertRow(0)]
  }

  function After(w: World, units: int): World
    requires w.jobs != []
  {
    var moved := Next(Next(w, ReadUser(0)), Move(units));
    Next(Next(Next(Next(moved, CheckRow(0)), SumLedger(0)), WriteUser(0)), InsertRow(0))
  }

  lemma SplitRunPlays(w: World, units: int)
    requires w.jobs != []
    ensures Play(w, SplitRun(units)) == After(w, units)
  {
    var s1 := [ReadUser(0)];
    PlayOne(w, ReadUser(0));
    PlayMore(w, s1, Move(units));
    PlayMore(w, s1 + [Move(units)], CheckRow(0));
    PlayMore(w, s1 + [Move(units)] + [CheckRow(0)], SumLedger(0));
    PlayMore(w, s1 + [Move(units)] + [CheckRow(0)] + [SumLedger(0)], WriteUser(0));
    PlayMore(w, s1 + [Move(units)] + [CheckRow(0)] + [SumLedger(0)] + [WriteUser(0)], InsertRow(0));
  }

  /**
   * A grant of 10 units between the two reads of a user whose seed had landed pays the seed again; a
   * spend of 10 units between the two reads of a user whose seed never landed withholds it.
   */
  lemma SplitReadsMisjudge(start: World)
    requires Fresh(start) && |start.jobs| == 1 && start.eligible && !start.row
    ensures Unexplained(start) == UNITS ==>
              var w := Play(start, SplitRun(UNITS));
              w.jobs == [Done(A, UNITS)] && w.topup == start.topup + w.moved + UNITS
    ensures Unexplained(start) == 0 ==>
              var w := Play(start, SplitRun(-UNITS)); w.jobs == [Done(B, -UNITS)] && w.topup == start.topup + w.moved
  {
    SplitRunPlays(start, UNITS);
    SplitRunPlays(start, -UNITS);
  }
}
