/**
 * The erase sweep (runAccountEraseSweep in apps/auth/src/services/account-erase.service.ts): each
 * sweep resumes up to 50 pending erases, those tried least recently. The theorem is fairness: how long
 * erases that keep failing can keep another one waiting, counting the attempts that are not recorded.
 */
module EraseSweep {
  import opened Options
  import opened Prefixes

  type Id = nat

  /** What the sweep sorts by: erasure.lastAttemptAt, then erasure.requestedAt. */
  datatype Key = Key(lastAttemptAt: Option<int>, requestedAt: int)

  type Pending = map<Id, Key>

  /** The sort order of the sweep's query; a missing lastAttemptAt sorts before any date. */
  predicate SortsBefore(a: Key, b: Key) {
    if a.lastAttemptAt == b.lastAttemptAt then a.requestedAt < b.requestedAt
    else a.lastAttemptAt.None? || (b.lastAttemptAt.Some? && a.lastAttemptAt.value < b.lastAttemptAt.value)
  }

  /** No erase of the batch sorts after `x`. */
  predicate NoneAfter(p: Pending, batch: seq<Id>, x: Id)
    requires x in p && forall i :: 0 <= i < |batch| ==> batch[i] in p
  {
    forall i :: 0 <= i < |batch| ==> !SortsBefore(p[x], p[batch[i]])
  }

  predicate InOrder(p: Pending, batch: seq<Id>)
    requires forall i :: 0 <= i < |batch| ==> batch[i] in p
  {
    forall i, j :: 0 <= i < j < |batch| ==> !SortsBefore(p[batch[j]], p[batch[i]])
  }

  predicate Distinct(batch: seq<Id>) {
    forall i, j :: 0 <= i < j < |batch| ==> batch[i] != batch[j]
  }

  /**
   * A result the sweep's query can give: equal keys may come in any order. The code's limit is 50
   * (ACCOUNT_ERASE_SWEEP_BATCH); the theorems hold for any.
   */
  predicate IsBatch(p: Pending, batch: seq<Id>, limit: nat) {
    && |batch| == (if |p| < limit then |p| else limit)
    && Distinct(batch)
    && (forall i :: 0 <= i < |batch| ==> batch[i] in p)
    && InOrder(p, batch)
    && (forall x {:trigger NoneAfter(p, batch, x)} :: x in p && x !in batch ==> NoneAfter(p, batch, x))
  }

  /** How one resumed erase ends. A failed user read, or a failed recordFailedAttempt, leaves no record. */
  datatype Result = Erased | FailedRecorded(at: int) | FailedUnrecorded

  function Attempt(p: Pending, id: Id, r: Result): Pending {
    match r
    case Erased => p - {id}
    case FailedRecorded(at) => if id in p then p[id := p[id].(lastAttemptAt := Some(at))] else p
    case FailedUnrecorded => p
  }

  function AttemptAll(p: Pending, batch: seq<Id>, results: seq<Result>): Pending
    requires |results| == |batch|
  {
    if batch == [] then p
    else Attempt(AttemptAll(p, batch[..|batch| - 1], results[..|batch| - 1]), batch[|batch| - 1], results[|batch| - 1])
  }

  /** The loop of runAccountEraseSweep over the ids its query returned. */
  method RunSweep(p: Pending, batch: seq<Id>, results: seq<Result>)
    returns (left: Pending, found: nat, finished: nat, pending: nat)
    requires |results| == |batch|
    ensures left == AttemptAll(p, batch, results)
    ensures found == |batch| && finished == ErasedIn(results) && pending == found - finished
  {
    left, found, finished, pending := p, |batch|, 0, 0;
    for i := 0 to |batch|
      invariant left == AttemptAll(p, batch[..i], results[..i])
      invariant finished == ErasedIn(results[..i]) && finished + pending == i
    {
      PrefixStep(batch, i);
      PrefixStep(results, i);
      left := Attempt(left, batch[i], results[i]);
      if results[i].Erased? {
        finished := finished + 1;
      } else {
        pending := pending + 1;
      }
    }
    PrefixAll(batch);
    PrefixAll(results);
  }

  function ErasedIn(results: seq<Result>): nat {
    if results == [] then 0
    else ErasedIn(results[..|results| - 1]) + if results[|results| - 1].Erased? then 1 else 0
  }

  /** The places of the attempts that ended with the account erased. */
  function ErasedPlaces(results: seq<Result>): set<nat> {
    set i: nat | i < |results| && results[i] == Erased
  }

  /** They are as many as the sweep counts. */
  lemma {:induction false} ErasedCount(results: seq<Result>)
    ensures ErasedIn(results) == |ErasedPlaces(results)|
  {
    if results != [] {
      var n := |results| - 1;
      ErasedCount(results[..n]);
      assert ErasedPlaces(results) == ErasedPlaces(results[..n]) + (if results[n] == Erased then {n} else {});
    }
  }

  // ----- many sweeps ----------------------------------------------------------------------------------

  /** The pending erases as a sweep finds them, its query's answer, and how each attempt ended. */
  datatype Round = Round(found: Pending, batch: seq<Id>, results: seq<Result>)

  /** `tried`: attempted so far. `seen`: ever pending. */
  datatype State = State(pending: Pending, tried: set<Id>, seen: set<Id>)

  /** `b` is `a`, or `a` after an attempt that was recorded. */
  predicate Follows(a: Key, b: Key) {
    a == b || (b.lastAttemptAt.Some? && (a.lastAttemptAt.Some? ==> a.lastAttemptAt.value <= b.lastAttemptAt.value))
  }

  /**
   * Between two sweeps erases arrive, tried once or not (closeAccount tries its own at once), and others
   * are tried outside the sweep (the operator's script): they are finished, or recorded, or neither.
   */
  predicate Enabled(s: State, r: Round, limit: nat) {
    && (forall x :: x in r.found && x in s.seen ==> x in s.pending && Follows(s.pending[x], r.found[x]))
    && IsBatch(r.found, r.batch, limit)
    && |r.results| == |r.batch|
  }

  /** The erases that were finished or recorded since the last sweep. */
  function Elsewhere(s: State, r: Round): set<Id> {
    set x | x in s.pending && (x !in r.found || r.found[x] != s.pending[x])
  }

  function After(s: State, r: Round): State
    requires |r.results| == |r.batch|
  {
    State(AttemptAll(r.found, r.batch, r.results),
          s.tried + Elsewhere(s, r) + Members(r.batch), s.seen + r.found.Keys)
  }

  /** Sweep `i` of a run starts from state `i` and leads to state `i + 1`. */
  ghost predicate SweepAt(states: seq<State>, rounds: seq<Round>, limit: nat, i: nat)
    requires i < |rounds| && |states| == |rounds| + 1
  {
    Enabled(states[i], rounds[i], limit) && states[i + 1] == After(states[i], rounds[i])
  }

  /** Sweep after sweep, with the states in between. */
  ghost predicate IsRun(states: seq<State>, rounds: seq<Round>, limit: nat) {
    && |states| == |rounds| + 1
    && forall i {:trigger SweepAt(states, rounds, limit, i)} :: 0 <= i < |rounds| ==> SweepAt(states, rounds, limit, i)
  }

  /** What failed attempts record are times after `t0`. */
  predicate RecordedAfter(results: seq<Result>, t0: int) {
    forall i :: 0 <= i < |results| && results[i].FailedRecorded? ==> results[i].at > t0
  }

  /** The erases that an attempt of the sweep finished, or recorded. */
  function SettledIn(batch: seq<Id>, results: seq<Result>): set<Id> {
    if batch == [] || |results| != |batch| then {}
    else
      var n := |batch| - 1;
      SettledIn(batch[..n], results[..n]) + (if results[n].FailedUnrecorded? then {} else {batch[n]})
  }

  /** How many attempts failed and left no record. */
  function UnrecordedIn(results: seq<Result>): nat {
    if results == [] then 0
    else UnrecordedIn(results[..|results| - 1]) + if results[|results| - 1].FailedUnrecorded? then 1 else 0
  }

  /** The same over many sweeps. */
  function Settled(rounds: seq<Round>): set<Id> {
    if rounds == [] then {}
    else
      var r := rounds[|rounds| - 1];
      Settled(rounds[..|rounds| - 1]) + SettledIn(r.batch, r.results)
  }

  function Unrecorded(rounds: seq<Round>): nat {
    if rounds == [] then 0 else Unrecorded(rounds[..|rounds| - 1]) + UnrecordedIn(rounds[|rounds| - 1].results)
  }

  /** At `t0` the fairness count starts: what a sweep settled since carries a later time. */
  predicate Tracked(s: State, settled: set<Id>, t0: int) {
    && settled <= s.tried <= s.seen && s.pending.Keys <= s.seen
    && forall x :: x in s.pending && x in settled ==> IsLater(s.pending[x], t0)
  }

  predicate IsLater(k: Key, t0: int) {
    k.lastAttemptAt.Some? && k.lastAttemptAt.value > t0
  }

  /** The erase has not been tried, and its last attempt before is no later than `t0`. */
  predicate Waits(s: State, t0: int, id: Id) {
    id in s.pending && id !in s.tried && !IsLater(s.pending[id], t0)
  }

  lemma {:induction false} AttemptAllEffect(p: Pending, batch: seq<Id>, results: seq<Result>, t0: int, x: Id)
    requires |results| == |batch| && RecordedAfter(results, t0)
    ensures var q := AttemptAll(p, batch, results);
      && (x !in SettledIn(batch, results) ==> (x in q <==> x in p) && (x in p ==> q[x] == p[x]))
      && (x in SettledIn(batch, results) && x in q ==> IsLater(q[x], t0))
      && (x in q ==> x in p)
  {
    if batch != [] {
      AttemptAllEffect(p, batch[..|batch| - 1], results[..|batch| - 1], t0, x);
    }
  }

  lemma {:induction false} SettledAreMembers(batch: seq<Id>, results: seq<Result>)
    requires |results| == |batch|
    ensures forall x :: x in SettledIn(batch, results) ==> x in batch
  {
    if batch != [] {
      SettledAreMembers(batch[..|batch| - 1], results[..|batch| - 1]);
    }
  }

  /** Every attempt settles its erase or leaves no record. */
  lemma {:induction false} SettledSize(batch: seq<Id>, results: seq<Result>)
    requires |results| == |batch| && Distinct(batch)
    ensures |SettledIn(batch, results)| + UnrecordedIn(results) == |batch|
  {
    if batch != [] {
      var n := |batch| - 1;
      SettledSize(batch[..n], results[..n]);
      SettledAreMembers(batch[..n], results[..n]);
      assert batch[n] !in SettledIn(batch[..n], results[..n]);
    }
  }

  function Members(batch: seq<Id>): set<Id> {
    set x | x in batch
  }

  lemma {:induction false} BatchSize(batch: seq<Id>)
    requires Distinct(batch)
    ensures |Members(batch)| == |batch|
  {
    if batch != [] {
      var n := |batch| - 1;
      BatchSize(batch[..n]);
      assert batch[n] !in batch[..n];
      assert batch == batch[..n] + [batch[n]];
      assert Members(batch) == Members(batch[..n]) + {batch[n]};
    }
  }

  /** An erase that waits, and is not tried before or by the sweep, is found as it was. */
  lemma FoundAsItWas(s: State, r: Round, limit: nat, t0: int, id: Id)
    requires Enabled(s, r, limit) && Waits(s, t0, id) && id !in After(s, r).tried
    ensures id in r.found && r.found[id] == s.pending[id] && id !in r.batch
  {
    assert id !in Elsewhere(s, r) && id !in Members(r.batch);
  }

  lemma BatchUnsettled(s: State, settled: set<Id>, r: Round, limit: nat, t0: int, id: Id)
    requires Tracked(s, settled, t0) && Enabled(s, r, limit)
    requires id in r.found && !IsLater(r.found[id], t0) && id !in r.batch
    ensures Members(r.batch) !! settled
  {
    assert NoneAfter(r.found, r.batch, id);
    forall x | x in Members(r.batch) ensures x !in settled {
      var i :| 0 <= i < |r.batch| && r.batch[i] == x;
      assert !SortsBefore(r.found[id], r.found[r.batch[i]]);
    }
  }

  lemma BatchFull(p: Pending, batch: seq<Id>, limit: nat, id: Id)
    requires IsBatch(p, batch, limit) && id in p && id !in batch
    ensures |batch| == limit
  {
    BatchSize(batch);
    assert Members(batch) <= p.Keys - {id};
    SubsetSize(Members(batch), p.Keys - {id});
    assert p.Keys == (p.Keys - {id}) + {id};
  }

  /** A sweep that passes over a waiting erase tries a full batch, none of it settled before. */
  lemma PassedOver(s: State, settled: set<Id>, r: Round, limit: nat, t0: int, id: Id)
    requires Tracked(s, settled, t0) && Enabled(s, r, limit) && Waits(s, t0, id) && id !in After(s, r).tried
    ensures |r.batch| == limit && Members(r.batch) !! settled
    ensures |settled + SettledIn(r.batch, r.results)| + UnrecordedIn(r.results) == |settled| + limit
  {
    FoundAsItWas(s, r, limit, t0, id);
    BatchFull(r.found, r.batch, limit, id);
    SettledSize(r.batch, r.results);
    SettledAreMembers(r.batch, r.results);
    BatchUnsettled(s, settled, r, limit, t0, id);
  }

  lemma SubsetSize(a: set<Id>, b: set<Id>)
    requires a <= b
    ensures |a| <= |b|
  {
    assert b == a + (b - a);
  }

  lemma TrackedAfter(s: State, settled: set<Id>, r: Round, limit: nat, t0: int)
    requires Tracked(s, settled, t0) && Enabled(s, r, limit) && RecordedAfter(r.results, t0)
    ensures Tracked(After(s, r), settled + SettledIn(r.batch, r.results), t0)
  {
    var v := After(s, r);
    SettledAreMembers(r.batch, r.results);
    forall x | x in r.batch ensures x in v.seen {
      var i :| 0 <= i < |r.batch| && r.batch[i] == x;
    }
    forall x | x in v.pending
      ensures x in v.seen && (x in settled + SettledIn(r.batch, r.results) ==> IsLater(v.pending[x], t0))
    {
      AttemptAllEffect(r.found, r.batch, r.results, t0, x);
    }
  }

  /** One sweep that leaves `id` untried. */
  lemma OneSweep(s: State, settled: set<Id>, r: Round, limit: nat, t0: int, id: Id)
    requires Tracked(s, settled, t0) && Enabled(s, r, limit) && RecordedAfter(r.results, t0)
    requires Waits(s, t0, id) && id !in After(s, r).tried
    ensures |settled + SettledIn(r.batch, r.results)| + UnrecordedIn(r.results) == |settled| + limit
    ensures Tracked(After(s, r), settled + SettledIn(r.batch, r.results), t0) && Waits(After(s, r), t0, id)
  {
    PassedOver(s, settled, r, limit, t0, id);
    TrackedAfter(s, settled, r, limit, t0);
    SettledAreMembers(r.batch, r.results);
    FoundAsItWas(s, r, limit, t0, id);
    AttemptAllEffect(r.found, r.batch, r.results, t0, id);
  }

  lemma OneMore(s: State, settled: set<Id>, t0: int, id: Id)
    requires Tracked(s, settled, t0) && Waits(s, t0, id)
    ensures |settled| < |s.seen|
  {
    SubsetSize(settled + {id}, s.seen);
  }

  lemma SettledStep(rounds: seq<Round>, n: nat)
    requires n < |rounds|
    ensures Settled(rounds[..n + 1]) == Settled(rounds[..n]) + SettledIn(rounds[n].batch, rounds[n].results)
    ensures Unrecorded(rounds[..n + 1]) == Unrecorded(rounds[..n]) + UnrecordedIn(rounds[n].results)
  {
    PrefixStep(rounds, n);
  }

  /** What `n` sweeps that left `id` untried have come to. */
  ghost predicate LeftWaiting(s: State, rounds: seq<Round>, limit: nat, t0: int, id: Id, n: nat)
    requires n <= |rounds|
  {
    && |Settled(rounds[..n])| + Unrecorded(rounds[..n]) == Attempts(limit, n)
    && Tracked(s, Settled(rounds[..n]), t0) && Waits(s, t0, id)
  }

  lemma StillWaiting(s: State, rounds: seq<Round>, limit: nat, t0: int, id: Id, n: nat)
    requires n < |rounds| && RecordedAfter(rounds[n].results, t0) && Enabled(s, rounds[n], limit)
    requires LeftWaiting(s, rounds, limit, t0, id, n) && id !in After(s, rounds[n]).tried
    ensures LeftWaiting(After(s, rounds[n]), rounds, limit, t0, id, n + 1)
  {
    SettledStep(rounds, n);
    OneSweep(s, Settled(rounds[..n]), rounds[n], limit, t0, id);
  }

  lemma WaitingAtStart(s: State, rounds: seq<Round>, limit: nat, t0: int, id: Id)
    requires Tracked(s, {}, t0) && Waits(s, t0, id)
    ensures LeftWaiting(s, rounds, limit, t0, id, 0)
  {
    assert rounds[..0] == [];
  }

  /** Each attempt of a full batch settled one more or left no record. */
  lemma {:induction false} UntriedMeansManySettled(
    states: seq<State>, rounds: seq<Round>, limit: nat, t0: int, id: Id, n: nat)
    requires forall i :: 0 <= i < |rounds| ==> RecordedAfter(rounds[i].results, t0)
    requires IsRun(states, rounds, limit) && n <= |rounds|
    requires Tracked(states[0], {}, t0) && Waits(states[0], t0, id) && id !in states[n].tried
    ensures LeftWaiting(states[n], rounds, limit, t0, id, n)
  {
    if n == 0 {
      WaitingAtStart(states[0], rounds, limit, t0, id);
    } else {
      UntriedBefore(states, rounds, limit, id, n - 1);
      UntriedMeansManySettled(states, rounds, limit, t0, id, n - 1);
      SweepLeavesWaiting(states, rounds, limit, t0, id, n - 1);
    }
  }

  lemma UntriedBefore(states: seq<State>, rounds: seq<Round>, limit: nat, id: Id, n: nat)
    requires IsRun(states, rounds, limit) && n < |rounds| && id !in states[n + 1].tried
    ensures id !in states[n].tried
  {
    assert SweepAt(states, rounds, limit, n);
  }

  lemma SweepLeavesWaiting(states: seq<State>, rounds: seq<Round>, limit: nat, t0: int, id: Id, n: nat)
    requires IsRun(states, rounds, limit) && n < |rounds| && RecordedAfter(rounds[n].results, t0)
    requires LeftWaiting(states[n], rounds, limit, t0, id, n) && id !in states[n + 1].tried
    ensures LeftWaiting(states[n + 1], rounds, limit, t0, id, n + 1)
  {
    assert SweepAt(states, rounds, limit, n);
    StillWaiting(states[n], rounds, limit, t0, id, n);
  }

  /** The attempts of `n` full sweeps. */
  function Attempts(limit: nat, n: nat): nat {
    if n == 0 then 0 else limit + Attempts(limit, n - 1)
  }

  lemma {:induction false} AttemptsProduct(limit: nat, n: nat)
    ensures Attempts(limit, n) == limit * n
  {
    if n > 0 {
      AttemptsProduct(limit, n - 1);
    }
  }

  /**
   * Fairness. `pending` are the erases waiting at some time, and `t0` is no earlier than the erase's last
   * attempt; what failed attempts of the sweeps record are later times. The erase has been tried once the
   * batch limit times the number of sweeps reaches the number of erases that were ever pending (those
   * waiting and all that arrived since), however many fail, and one attempt more for each that failed in
   * a sweep and left no record.
   */
  lemma EveryEraseIsTried(
    pending: Pending, states: seq<State>, rounds: seq<Round>, limit: nat, t0: int, id: Id)
    requires id in pending && !IsLater(pending[id], t0)
    requires IsRun(states, rounds, limit) && states[0] == State(pending, {}, pending.Keys)
    requires forall i :: 0 <= i < |rounds| ==> RecordedAfter(rounds[i].results, t0)
    requires limit * |rounds| >= |states[|rounds|].seen| + Unrecorded(rounds)
    ensures id in states[|rounds|].tried
  {
    var n := |rounds|;
    if id !in states[n].tried {
      PrefixAll(rounds);
      UntriedMeansManySettled(states, rounds, limit, t0, id, n);
      OneMore(states[n], Settled(rounds[..n]), t0, id);
      AttemptsProduct(limit, n);
    }
  }

  // ----- what attempts without a record cost ---------------------------------------------------------------

  /** The ids below n. */
  function Below(n: nat): (ids: set<Id>)
    ensures |ids| == n && forall x: Id :: x in ids <==> x < n
  {
    if n == 0 then {} else Below(n - 1) + {n - 1}
  }

  /** One erase more than a batch holds, never tried, requested in the order of their ids. */
  function Crowd(n: nat): (p: Pending)
    ensures p.Keys == Below(n + 1) && |p| == n + 1
  {
    var p := map x | x in Below(n + 1) :: Key(None, x);
    assert p.Keys == Below(n + 1);
    p
  }

  /** 0, 1, ..., n - 1 */
  function Range(n: nat): (xs: seq<Id>)
    ensures |xs| == n && forall i :: 0 <= i < n ==> xs[i] == i
  {
    if n == 0 then [] else Range(n - 1) + [n - 1]
  }

  function Silent(n: nat): (results: seq<Result>)
    ensures |results| == n && forall i :: 0 <= i < n ==> results[i].FailedUnrecorded?
  {
    if n == 0 then [] else Silent(n - 1) + [FailedUnrecorded]
  }

  /** A sweep of the first n, none of which leaves a record. */
  function Fruitless(n: nat): Round {
    Round(Crowd(n), Range(n), Silent(n))
  }

  function CrowdState(n: nat, tried: set<Id>): State {
    State(Crowd(n), tried, Crowd(n).Keys)
  }

  lemma {:induction false} UnrecordedKeeps(p: Pending, batch: seq<Id>, results: seq<Result>)
    requires |results| == |batch| && forall i :: 0 <= i < |results| ==> results[i].FailedUnrecorded?
    ensures AttemptAll(p, batch, results) == p
  {
    if batch != [] {
      UnrecordedKeeps(p, batch[..|batch| - 1], results[..|batch| - 1]);
    }
  }

  lemma FruitlessMembers(n: nat)
    ensures Members(Fruitless(n).batch) == Below(n)
  {
    forall x | x in Below(n) ensures x in Fruitless(n).batch {
      assert Fruitless(n).batch[x] == x;
    }
  }

  lemma FruitlessInOrder(n: nat)
    ensures forall i :: 0 <= i < n ==> Range(n)[i] in Crowd(n)
    ensures InOrder(Crowd(n), Range(n))
  {
  }

  lemma FruitlessLeavesLast(n: nat, x: Id)
    requires x in Crowd(n) && x !in Range(n) && forall i :: 0 <= i < n ==> Range(n)[i] in Crowd(n)
    ensures NoneAfter(Crowd(n), Range(n), x)
  {
    FruitlessMembers(n);
    assert x !in Members(Range(n));
  }

  lemma FruitlessIsBatch(n: nat)
    ensures IsBatch(Crowd(n), Fruitless(n).batch, n)
  {
    FruitlessInOrder(n);
    forall x | x in Crowd(n) && x !in Range(n) ensures NoneAfter(Crowd(n), Range(n), x) {
      FruitlessLeavesLast(n, x);
    }
  }

  lemma FruitlessEnabled(n: nat, tried: set<Id>)
    ensures Enabled(CrowdState(n, tried), Fruitless(n), n)
  {
    FruitlessIsBatch(n);
  }

  /** A sweep of what it finds as it was left, without a record, changes only what was tried. */
  lemma AfterUnrecorded(s: State, r: Round)
    requires |r.results| == |r.batch| && forall i :: 0 <= i < |r.results| ==> r.results[i].FailedUnrecorded?
    requires r.found == s.pending && s.pending.Keys <= s.seen
    ensures After(s, r) == s.(tried := s.tried + Members(r.batch))
  {
    UnrecordedKeeps(r.found, r.batch, r.results);
    assert Elsewhere(s, r) == {};
    assert s.seen + r.found.Keys == s.seen && s.tried + {} == s.tried;
  }

  lemma FruitlessAfter(n: nat, tried: set<Id>)
    ensures Enabled(CrowdState(n, tried), Fruitless(n), n)
    ensures After(CrowdState(n, tried), Fruitless(n)) == CrowdState(n, tried + Below(n))
  {
    FruitlessEnabled(n, tried);
    FruitlessMembers(n);
    AfterUnrecorded(CrowdState(n, tried), Fruitless(n));
  }

  /** The states of a run of fruitless sweeps: nothing changes but what was tried. */
  function FruitlessStates(n: nat, sweeps: nat): (states: seq<State>)
    ensures |states| == sweeps + 1 && states[0] == CrowdState(n, {})
    ensures forall i :: 0 < i <= sweeps ==> states[i] == CrowdState(n, Below(n))
  {
    if sweeps == 0 then [CrowdState(n, {})] else FruitlessStates(n, sweeps - 1) + [CrowdState(n, Below(n))]
  }

  function FruitlessRounds(n: nat, sweeps: nat): (rounds: seq<Round>)
    ensures |rounds| == sweeps && forall i :: 0 <= i < sweeps ==> rounds[i] == Fruitless(n)
  {
    if sweeps == 0 then [] else FruitlessRounds(n, sweeps - 1) + [Fruitless(n)]
  }

  /**
   * When attempts leave no record (the user read fails each time), as many such erases as a batch
   * holds starve one more for any number of sweeps.
   */
  lemma UnrecordedFailuresStarve(n: nat, sweeps: nat)
    ensures IsRun(FruitlessStates(n, sweeps), FruitlessRounds(n, sweeps), n)
    ensures n in Crowd(n) && n !in FruitlessStates(n, sweeps)[sweeps].tried
  {
    var states, rounds := FruitlessStates(n, sweeps), FruitlessRounds(n, sweeps);
    FruitlessAfter(n, {});
    FruitlessAfter(n, Below(n));
    assert {} + Below(n) == Below(n) && Below(n) + Below(n) == Below(n);
    forall i | 0 <= i < sweeps ensures SweepAt(states, rounds, n, i) {
      assert states[i] == CrowdState(n, if i == 0 then {} else Below(n));
    }
  }

  function Finished(n: nat): (results: seq<Result>)
    ensures |results| == n && (forall i :: 0 <= i < n ==> results[i].Erased?) && UnrecordedIn(results) == 0
  {
    if n == 0 then [] else Finished(n - 1) + [Erased]
  }

  lemma {:induction false} FruitlessUnrecorded(n: nat, sweeps: nat)
    ensures UnrecordedIn(Silent(n)) == n && Unrecorded(FruitlessRounds(n, sweeps)) == Attempts(n, sweeps)
  {
    if sweeps > 0 {
      FruitlessUnrecorded(n, sweeps - 1);
    } else if n > 0 {
      FruitlessUnrecorded(n - 1, 0);
    }
  }

  /** A batch of erases that fail without a record in each of so many sweeps, and then finish. */
  function TightRounds(n: nat, sweeps: nat): seq<Round> {
    FruitlessRounds(n, sweeps) + [Round(Crowd(n), Range(n), Finished(n))]
  }

  function TightStates(n: nat, sweeps: nat): seq<State> {
    FruitlessStates(n, sweeps) + [After(FruitlessStates(n, sweeps)[sweeps], Round(Crowd(n), Range(n), Finished(n)))]
  }

  /**
   * No bound with less holds: such erases have used up all attempts that the theorem asks for but one,
   * and one more erase is still untried.
   */
  lemma FairnessIsTight(n: nat, sweeps: nat)
    ensures var states, rounds := TightStates(n, sweeps), TightRounds(n, sweeps);
      && IsRun(states, rounds, n) && states[0] == State(Crowd(n), {}, Crowd(n).Keys)
      && n in Crowd(n) && n !in states[sweeps + 1].tried
      && n * |rounds| + 1 == |states[sweeps + 1].seen| + Unrecorded(rounds)
  {
    TightIsRun(n, sweeps);
    TightLeavesLast(n, sweeps);
    TightCount(n, sweeps);
  }

  lemma TightLeavesLast(n: nat, sweeps: nat)
    ensures var s := TightStates(n, sweeps)[sweeps + 1];
      n in Crowd(n) && n !in s.tried && |s.seen| == n + 1
  {
    FruitlessMembers(n);
    assert Crowd(n).Keys + Crowd(n).Keys == Below(n + 1);
  }

  lemma TightCount(n: nat, sweeps: nat)
    ensures |TightRounds(n, sweeps)| == sweeps + 1 && Unrecorded(TightRounds(n, sweeps)) == n * sweeps
  {
    FruitlessUnrecorded(n, sweeps);
    AttemptsProduct(n, sweeps);
    assert TightRounds(n, sweeps)[..sweeps] == FruitlessRounds(n, sweeps);
  }

  lemma TightIsRun(n: nat, sweeps: nat)
    ensures IsRun(TightStates(n, sweeps), TightRounds(n, sweeps), n)
  {
    forall i | 0 <= i < |TightRounds(n, sweeps)| ensures SweepAt(TightStates(n, sweeps), TightRounds(n, sweeps), n, i) {
      if i < sweeps {
        UnrecordedFailuresStarve(n, sweeps);
        EarlierSweep(FruitlessStates(n, sweeps), FruitlessRounds(n, sweeps), n, i, TightStates(n, sweeps)[sweeps + 1],
                     TightRounds(n, sweeps)[sweeps]);
      } else {
        LastIsEnabled(n, FruitlessStates(n, sweeps)[sweeps].tried);
      }
    }
  }

  lemma EarlierSweep(states: seq<State>, rounds: seq<Round>, limit: nat, i: nat, s: State, r: Round)
    requires IsRun(states, rounds, limit) && i < |rounds|
    ensures SweepAt(states + [s], rounds + [r], limit, i)
  {
    assert SweepAt(states, rounds, limit, i);
  }

  lemma LastIsEnabled(n: nat, tried: set<Id>)
    ensures Enabled(CrowdState(n, tried), Round(Crowd(n), Range(n), Finished(n)), n)
  {
    FruitlessIsBatch(n);
  }
}
