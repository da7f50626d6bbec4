/**
 * POST /me/password under parallel requests: the limiter of
 * apps/auth/src/services/password-change-rate-limit.ts and changePassword with checkAndSetPassword in
 * apps/auth/src/services/auth.service.ts. Each Redis command and each database call is one action.
 */
module PasswordLimiter {
  import opened Options

  const CAP: int := 5

  /** Where an attempt stands, between two calls. */
  datatype Phase =
    | Waiting
    | Counted                            // after INCR
    | Asked(needsTtl: bool, seen: nat)   // after PTTL, in the window it was asked in
    | Refusing                           // over the cap: DECR comes next
    | Allowed                            // reserved
    | Loaded(hash: nat)                  // the user is read
    | Writing(hash: nat)                 // the password was right
    | Clearing                           // changed: DEL comes next
    | Releasing                          // no compare came of it: DECR comes next
    | Deleting                           // DECR gave 0 or less: DEL comes next
    | Finished

  /**
   * An attempt: its phase, the window it was counted in and the count it got, whether its hit still
   * stands, whether its password was compared, and the hash it replaced.
   */
  datatype Attempt = Attempt(phase: Phase, window: nat, count: int, hit: bool, compared: bool, replaced: Option<nat>)

  /**
   * The counter key and whether it has a TTL; which window it is in, a window ending when the key
   * expires or is deleted; for each window the DECRs of attempts counted in an earlier one; the stored
   * hash, numbered by its writes; whether there is an active account with a password.
   */
  datatype World = World(key: Option<int>, ttl: bool, window: nat, strays: seq<nat>, hash: nat, account: bool,
                         attempts: seq<Attempt>)

  datatype Action =
    | Incr(i: nat) | AskTtl(i: nat) | SetTtl(i: nat) | Refuse(i: nat)
    | Look(i: nat) | Compare(i: nat, right: bool) | Write(i: nat)
    | Clear(i: nat) | GiveBack(i: nat) | DeleteKey(i: nat)
    | Halt(i: nat)             // the request dies or throws here
    | Expire                   // the window's TTL runs out
    | WriteOther               // a reset link sets another password
    | SetAccount(now: bool)

  function Value(w: World): int {
    if w.key.Some? then w.key.value else 0
  }

  predicate IsAt(w: World, i: nat, p: Phase) {
    i < |w.attempts| && w.attempts[i].phase == p
  }

  function Put(w: World, i: nat, a: Attempt): World
    requires i < |w.attempts|
  {
    w.(attempts := w.attempts[i := a])
  }

  function At(w: World, i: nat, p: Phase): World
    requires i < |w.attempts|
  {
    Put(w, i, w.attempts[i].(phase := p))
  }

  /** The key is gone: a new window starts. */
  function NewWindow(w: World): World {
    w.(key := None, ttl := false, window := w.window + 1, strays := w.strays + [0])
  }

  /** DECR for attempt i; in a later window than its own it is a stray. */
  function Decr(w: World, i: nat): World
    requires i < |w.attempts|
  {
    w.(key := Some(Value(w) - 1),
       strays := if w.attempts[i].window == w.window || w.window >= |w.strays| then w.strays
                 else w.strays[w.window := w.strays[w.window] + 1],
       attempts := w.attempts[i := w.attempts[i].(hit := false)])
  }

  function Judged(a: Attempt): Phase {
    if a.count > CAP then Refusing else Allowed
  }

  /** One action; one that cannot happen changes nothing. */
  function Next(w: World, a: Action): World {
    match a
    case Incr(i) =>
      if IsAt(w, i, Waiting)
      then Put(w.(key := Some(Value(w) + 1)), i, Attempt(Counted, w.window, Value(w) + 1, true, false, None)) else w
    case AskTtl(i) =>
      if IsAt(w, i, Counted) then At(w, i, Asked(w.attempts[i].count == 1 || !w.ttl, w.window)) else w
    case SetTtl(i) =>
      if i < |w.attempts| && w.attempts[i].phase.Asked?
      then At(w.(ttl := w.ttl || (w.attempts[i].phase.needsTtl && w.key.Some?)), i, Judged(w.attempts[i])) else w
    case Refuse(i) =>
      if IsAt(w, i, Refusing) then At(Decr(w, i), i, Finished) else w
    case Look(i) =>
      if IsAt(w, i, Allowed) then At(w, i, if w.account then Loaded(w.hash) else Releasing) else w
    case Compare(i, right) =>
      if i < |w.attempts| && w.attempts[i].phase.Loaded?
      then Put(w, i, w.attempts[i].(compared := true,
                                    phase := if right then Writing(w.attempts[i].phase.hash) else Finished))
      else w
    case Write(i) =>
      if i < |w.attempts| && w.attempts[i].phase.Writing? then
        var was := w.attempts[i].phase.hash;
        if w.account && w.hash == was
        then Put(w.(hash := w.hash + 1), i, w.attempts[i].(phase := Clearing, replaced := Some(was)))
        else At(w, i, Finished)
      else w
    case Clear(i) =>
      if IsAt(w, i, Clearing) then NewWindow(At(w, i, Finished)) else w
    case GiveBack(i) =>
      if IsAt(w, i, Releasing) then At(Decr(w, i), i, if Value(w) - 1 <= 0 then Deleting else Finished) else w
    case DeleteKey(i) =>
      if IsAt(w, i, Deleting) then NewWindow(At(w, i, Finished)) else w
    case Halt(i) =>
      if i < |w.attempts| then At(w, i, Finished) else w
    case Expire => if w.ttl then NewWindow(w) else w
    case WriteOther => w.(hash := w.hash + 1)
    case SetAccount(now) => w.(account := now)
  }

  // ----- counting attempts ---------------------------------------------------------------------------------

  function Count(attempts: seq<Attempt>, p: Attempt -> bool): nat {
    if attempts == [] then 0 else Count(attempts[..|attempts| - 1], p) + One(p, attempts[|attempts| - 1])
  }

  function One(p: Attempt -> bool, a: Attempt): nat {
    if p(a) then 1 else 0
  }

  lemma {:induction false} CountUpdate(attempts: seq<Attempt>, i: nat, a: Attempt, p: Attempt -> bool)
    requires i < |attempts|
    ensures Count(attempts[i := a], p) == Count(attempts, p) - One(p, attempts[i]) + One(p, a)
  {
    var n := |attempts| - 1;
    if i < n {
      CountUpdate(attempts[..n], i, a, p);
      assert attempts[i := a][..n] == attempts[..n][i := a];
    } else {
      assert attempts[i := a][..n] == attempts[..n];
    }
  }

  lemma {:induction false} CountAtMost(attempts: seq<Attempt>, p: Attempt -> bool, q: Attempt -> bool)
    requires forall a :: a in attempts && p(a) ==> q(a)
    ensures Count(attempts, p) <= Count(attempts, q)
  {
    if attempts != [] {
      var n := |attempts| - 1;
      assert attempts[n] in attempts && forall a :: a in attempts[..n] ==> a in attempts;
      CountAtMost(attempts[..n], p, q);
    }
  }

  lemma {:induction false} CountNone(attempts: seq<Attempt>, p: Attempt -> bool)
    requires forall a :: a in attempts ==> !p(a)
    ensures Count(attempts, p) == 0
  {
    if attempts != [] {
      var n := |attempts| - 1;
      assert attempts[n] in attempts && forall a :: a in attempts[..n] ==> a in attempts;
      CountNone(attempts[..n], p);
    }
  }

  /** Attempts whose hit stands in the window. */
  function HitIn(window: nat): Attempt -> bool {
    (a: Attempt) => a.hit && a.window == window
  }

  /** Of these, the ones that were within the cap. */
  function LowIn(window: nat): Attempt -> bool {
    (a: Attempt) => a.hit && a.window == window && a.count <= CAP
  }

  /** Attempts counted in the window whose password was compared. */
  function ComparedIn(window: nat): Attempt -> bool {
    (a: Attempt) => a.compared && a.window == window
  }

  // ----- the invariant -----------------------------------------------------------------------------------------

  predicate Fits(w: World, a: Attempt) {
    && a.window <= w.window
    && (w.key.None? && a.hit ==> a.window < w.window)
    && (a.compared ==> a.hit && a.count <= CAP)
    && (match a.phase
        case Waiting => !a.hit && !a.compared
        case Counted => a.hit && !a.compared
        case Asked(needsTtl, seen) => a.hit && !a.compared && seen <= w.window
            && (seen == w.window && !needsTtl ==> w.ttl)
        case Refusing => a.hit && !a.compared && a.count > CAP
        case Allowed => a.hit && !a.compared && a.count <= CAP
        case Loaded(_) => a.hit && !a.compared && a.count <= CAP
        case Releasing => a.hit && !a.compared && a.count <= CAP
        case Writing(_) => a.hit && a.count <= CAP
        case Clearing => a.hit && a.count <= CAP
        case Deleting => !a.hit && !a.compared
        case Finished => true)
  }

  predicate WindowFits(attempts: seq<Attempt>, strays: seq<nat>, e: nat) {
    e < |strays| ==> Count(attempts, LowIn(e)) <= CAP + strays[e]
  }

  ghost predicate Inv(w: World) {
    && |w.strays| == w.window + 1
    && (w.ttl ==> w.key.Some?)
    && Value(w) == Count(w.attempts, HitIn(w.window)) - w.strays[w.window]
    && (forall e: nat :: WindowFits(w.attempts, w.strays, e))
    && (forall i :: 0 <= i < |w.attempts| ==> Fits(w, w.attempts[i]))
  }

  /** A change that leaves an attempt's hit, window and count alone. */
  lemma SameHits(w: World, i: nat, a: Attempt, next: World)
    requires Inv(w) && i < |w.attempts| && next.attempts == w.attempts[i := a]
    requires next.key == w.key && next.window == w.window && next.strays == w.strays
    requires (next.ttl ==> w.key.Some?) && (w.ttl ==> next.ttl)
    requires a.hit == w.attempts[i].hit && a.window == w.attempts[i].window && a.count == w.attempts[i].count
    requires Fits(next, a)
    ensures Inv(next)
  {
    CountUpdate(w.attempts, i, a, HitIn(w.window));
    forall e: nat ensures WindowFits(next.attempts, next.strays, e) {
      assert WindowFits(w.attempts, w.strays, e);
      CountUpdate(w.attempts, i, a, LowIn(e));
    }
  }

  /** INCR: an attempt that gets a count within the cap is one of at most the cap and the strays. */
  lemma IncrFits(w: World, i: nat)
    requires Inv(w) && IsAt(w, i, Waiting)
    ensures Inv(Next(w, Incr(i)))
  {
    var next := Next(w, Incr(i));
    var a := next.attempts[i];
    CountUpdate(w.attempts, i, a, HitIn(w.window));
    forall e: nat ensures WindowFits(next.attempts, next.strays, e) {
      assert WindowFits(w.attempts, w.strays, e);
      CountUpdate(w.attempts, i, a, LowIn(e));
      if e == w.window && a.count <= CAP {
        CountAtMost(next.attempts, LowIn(e), HitIn(e));
      }
    }
  }

  /** DECR: the attempt's own hit is taken back, or a stray is counted. */
  lemma DecrFits(w: World, i: nat, p: Phase)
    requires Inv(w) && i < |w.attempts| && w.attempts[i].hit && !w.attempts[i].compared
    requires p == Finished || p == Deleting
    ensures Inv(At(Decr(w, i), i, p))
  {
    var next := At(Decr(w, i), i, p);
    var a := next.attempts[i];
    CountUpdate(w.attempts, i, a, HitIn(w.window));
    assert next.attempts == w.attempts[i := a];
    forall e: nat ensures WindowFits(next.attempts, next.strays, e) {
      assert WindowFits(w.attempts, w.strays, e);
      CountUpdate(w.attempts, i, a, LowIn(e));
    }
  }

  /** A new window starts from nothing. */
  lemma NewWindowFits(w: World)
    requires Inv(w)
    ensures Inv(NewWindow(w))
  {
    var next := NewWindow(w);
    forall a | a in w.attempts ensures a.window <= w.window {
      var k :| 0 <= k < |w.attempts| && w.attempts[k] == a;
      assert Fits(w, w.attempts[k]);
    }
    CountNone(w.attempts, HitIn(next.window));
    CountNone(w.attempts, LowIn(next.window));
    forall e: nat ensures WindowFits(next.attempts, next.strays, e) {
      assert WindowFits(w.attempts, w.strays, e);
    }
    forall i | 0 <= i < |next.attempts| ensures Fits(next, next.attempts[i]) {
      assert Fits(w, w.attempts[i]);
    }
  }

  /** The key is deleted after the attempt's own write or DECR. */
  lemma DelFits(w: World, i: nat)
    requires Inv(w) && i < |w.attempts| && (w.attempts[i].phase == Clearing || w.attempts[i].phase == Deleting)
    ensures Inv(NewWindow(At(w, i, Finished)))
  {
    assert Fits(w, w.attempts[i]);
    SameHits(w, i, w.attempts[i].(phase := Finished), At(w, i, Finished));
    NewWindowFits(At(w, i, Finished));
  }

  /** The actions that start a window. */
  lemma WindowStep(w: World, a: Action)
    requires Inv(w) && (a.Clear? || a.DeleteKey? || a.Expire?)
    ensures Inv(Next(w, a))
  {
    if a.Expire? {
      NewWindowFits(w);
    } else if a.i < |w.attempts| && (w.attempts[a.i].phase == Clearing || w.attempts[a.i].phase == Deleting) {
      DelFits(w, a.i);
    }
  }

  /** The actions that count an attempt or take a hit back. */
  lemma CountStep(w: World, a: Action)
    requires Inv(w) && (a.Incr? || a.Refuse? || a.GiveBack?)
    ensures Inv(Next(w, a))
  {
    if a.i < |w.attempts| {
      assert Fits(w, w.attempts[a.i]);
      if a.Incr? && w.attempts[a.i].phase == Waiting {
        IncrFits(w, a.i);
      } else if a.Refuse? && w.attempts[a.i].phase == Refusing {
        DecrFits(w, a.i, Finished);
      } else if a.GiveBack? && w.attempts[a.i].phase == Releasing {
        DecrFits(w, a.i, if Value(w) - 1 <= 0 then Deleting else Finished);
      }
    }
  }

  lemma NextKeepsInv(w: World, a: Action)
    requires Inv(w)
    ensures Inv(Next(w, a))
  {
    if a.Clear? || a.DeleteKey? || a.Expire? {
      WindowStep(w, a);
    } else if a.Incr? || a.Refuse? || a.GiveBack? {
      CountStep(w, a);
    } else if !a.WriteOther? && !a.SetAccount? {
      QuietStep(w, a, a.i);
    }
  }

  /** The actions that change neither the counter nor any hit. */
  lemma QuietStep(w: World, a: Action, i: nat)
    requires Inv(w)
    requires a == AskTtl(i) || a == SetTtl(i) || a == Look(i) || (a.Compare? && a.i == i) || a == Write(i)
        || a == Halt(i)
    ensures Inv(Next(w, a))
  {
    if i < |w.attempts| {
      var next := Next(w, a);
      assert Fits(w, w.attempts[i]);
      assert next.attempts == w.attempts[i := next.attempts[i]];
      SameHits(w, i, next.attempts[i], next);
    }
  }

  // ----- the bound --------------------------------------------------------------------------------------------

  function Play(w: World, actions: seq<Action>): World {
    if actions == [] then w else Next(Play(w, actions[..|actions| - 1]), actions[|actions| - 1])
  }

  /** No key yet, and no attempt has begun. */
  predicate Fresh(w: World) {
    && w.key == None && !w.ttl && w.window == 0 && w.strays == [0]
    && forall i :: 0 <= i < |w.attempts| ==> w.attempts[i] == Attempt(Waiting, 0, 0, false, false, None)
  }

  lemma FreshFits(w: World)
    requires Fresh(w)
    ensures Inv(w)
  {
    forall a | a in w.attempts ensures !a.hit {
      var k :| 0 <= k < |w.attempts| && w.attempts[k] == a;
    }
    CountNone(w.attempts, HitIn(0));
    CountNone(w.attempts, LowIn(0));
    forall e: nat ensures WindowFits(w.attempts, w.strays, e) {
    }
  }

  lemma {:induction false} PlayKeepsInv(start: World, actions: seq<Action>)
    requires Fresh(start)
    ensures Inv(Play(start, actions))
  {
    if actions == [] {
      FreshFits(start);
    } else {
      var n := |actions| - 1;
      PlayKeepsInv(start, actions[..n]);
      NextKeepsInv(Play(start, actions[..n]), actions[n]);
    }
  }

  /**
   * Of the attempts counted in a window, at most the cap have their password compared, and one more
   * for each DECR that an attempt of an earlier window made in it. With none, at most five.
   */
  lemma ComparesBounded(start: World, actions: seq<Action>, e: nat)
    requires Fresh(start) && e <= Play(start, actions).window
    ensures var w := Play(start, actions);
      && |w.strays| == w.window + 1
      && Count(w.attempts, ComparedIn(e)) <= CAP + w.strays[e]
      && (w.strays[e] == 0 ==> Count(w.attempts, ComparedIn(e)) <= CAP)
  {
    var w := Play(start, actions);
    PlayKeepsInv(start, actions);
    forall a | a in w.attempts && ComparedIn(e)(a) ensures LowIn(e)(a) {
      var k :| 0 <= k < |w.attempts| && w.attempts[k] == a;
      assert Fits(w, w.attempts[k]);
    }
    CountAtMost(w.attempts, ComparedIn(e), LowIn(e));
    assert WindowFits(w.attempts, w.strays, e);
  }

  /** Exactly when an attempt is admitted: fewer hits stand in the window than the cap and the strays. */
  lemma AdmittedIff(start: World, actions: seq<Action>, i: nat)
    requires Fresh(start) && IsAt(Play(start, actions), i, Waiting)
    ensures var w := Play(start, actions);
      && |w.strays| == w.window + 1
      && (Judged(Next(w, Incr(i)).attempts[i]) == Allowed
          <==> Count(w.attempts, HitIn(w.window)) < CAP + w.strays[w.window])
  {
    PlayKeepsInv(start, actions);
  }

  /**
   * The bound is met: when the window is full, an attempt of an earlier window that gives its hit back
   * lets one more attempt in.
   */
  lemma StrayReopensWindow(start: World, actions: seq<Action>, i: nat, j: nat)
    requires Fresh(start) && i != j
    requires var w := Play(start, actions);
      && IsAt(w, i, Releasing) && IsAt(w, j, Waiting) && w.attempts[i].window < w.window && Value(w) == CAP
    ensures var w := Play(start, actions);
      && Judged(Next(w, Incr(j)).attempts[j]) == Refusing
      && Judged(Next(Next(w, GiveBack(i)), Incr(j)).attempts[j]) == Allowed
      && |w.strays| == w.window + 1
      && Count(w.attempts, HitIn(w.window)) == CAP + w.strays[w.window]
  {
    PlayKeepsInv(start, actions);
  }

  /** The counter is the number of hits that stand in the window, less the strays made in it. */
  lemma CountIsStanding(start: World, actions: seq<Action>)
    requires Fresh(start)
    ensures var w := Play(start, actions);
      |w.strays| == w.window + 1 && Value(w) == Count(w.attempts, HitIn(w.window)) - w.strays[w.window]
  {
    PlayKeepsInv(start, actions);
  }

  lemma NextKeepsFinished(w: World, a: Action, i: nat)
    requires IsAt(w, i, Finished)
    ensures |Next(w, a).attempts| == |w.attempts| && Next(w, a).attempts[i] == w.attempts[i]
  {
  }

  lemma {:induction false} FinishedStays(w: World, actions: seq<Action>, i: nat)
    requires IsAt(w, i, Finished)
    ensures |Play(w, actions).attempts| == |w.attempts| && Play(w, actions).attempts[i] == w.attempts[i]
  {
    if actions != [] {
      var n := |actions| - 1;
      FinishedStays(w, actions[..n], i);
      NextKeepsFinished(Play(w, actions[..n]), actions[n], i);
    }
  }

  /**
   * A refused attempt adds nothing to the count, whatever other attempts did between its INCR and its
   * DECR, and whatever happens later: its hit never stands again, and its DECR takes back one hit, a
   * stray only when its window had ended.
   */
  lemma RefusedNeverStands(start: World, actions: seq<Action>, i: nat, later: seq<Action>)
    requires Fresh(start) && IsAt(Play(start, actions), i, Refusing)
    ensures var w := Play(start, actions);
      var refused := Next(w, Refuse(i));
      && Value(refused) == Value(w) - 1 && refused.window == w.window
      && (w.attempts[i].window == w.window ==>
            && refused.strays == w.strays
            && Count(refused.attempts, HitIn(w.window)) == Count(w.attempts, HitIn(w.window)) - 1)
      && |Play(refused, later).attempts| == |w.attempts|
      && var a := Play(refused, later).attempts[i]; a.phase == Finished && !a.hit && !a.compared
  {
    var w := Play(start, actions);
    var refused := Next(w, Refuse(i));
    PlayKeepsInv(start, actions);
    assert Fits(w, w.attempts[i]);
    CountUpdate(w.attempts, i, refused.attempts[i], HitIn(w.window));
    assert refused.attempts == w.attempts[i := refused.attempts[i]];
    FinishedStays(refused, later, i);
  }

  /**
   * An attempt that asks for the TTL and settles it within one window leaves no key without a TTL,
   * whatever other attempts did before and in between: no key locks anyone out for good. Counted in
   * that window too, it leaves a key.
   */
  lemma ReserveLeavesTtl(start: World, actions: seq<Action>, i: nat)
    requires Fresh(start)
    requires var w := Play(start, actions);
      i < |w.attempts| && w.attempts[i].phase.Asked? && w.attempts[i].phase.seen == w.window
    ensures var w := Play(start, actions);
      var after := Next(w, SetTtl(i));
      && (after.key.Some? ==> after.ttl) && (w.attempts[i].window == w.window ==> after.key.Some?)
      && after.attempts[i].phase == Judged(w.attempts[i])
  {
    PlayKeepsInv(start, actions);
    assert Fits(Play(start, actions), Play(start, actions).attempts[i]);
  }

  // ----- the bound is met ------------------------------------------------------------------------------------------

  lemma {:induction false} PlayConcat(w: World, a: seq<Action>, b: seq<Action>)
    ensures Play(w, a + b) == Play(Play(w, a), b)
  {
    if b == [] {
      assert a + b == a;
    } else {
      var n := |b| - 1;
      PlayConcat(w, a, b[..n]);
      assert (a + b)[..|a + b| - 1] == a + b[..n];
    }
  }

  lemma InThree(w: World, a: seq<Action>, b: seq<Action>, c: seq<Action>)
    ensures Play(w, a + b + c) == Play(Play(Play(w, a), b), c)
  {
    PlayConcat(w, a + b, c);
    PlayConcat(w, a, b);
  }

  lemma PlayOne(w: World, a: Action)
    ensures Play(w, [a]) == Next(w, a)
  {
    assert [a][..0] == [];
  }

  lemma PlayThen(w: World, actions: seq<Action>, a: Action)
    ensures Play(w, actions + [a]) == Next(Play(w, actions), a)
  {
    assert (actions + [a])[..|actions|] == actions;
  }

  const UNTRIED := Attempt(Waiting, 0, 0, false, false, None)

  function Reserving(i: nat): seq<Action> {
    [Incr(i)] + [AskTtl(i)] + [SetTtl(i)]
  }

  /** A wrong guess, with nothing in between. */
  function Guess(i: nat): seq<Action> {
    Reserving(i) + [Look(i)] + [Compare(i, false)]
  }

  lemma PlayReserving(w: World, i: nat)
    ensures Play(w, Reserving(i)) == Next(Next(Next(w, Incr(i)), AskTtl(i)), SetTtl(i))
  {
    PlayOne(w, Incr(i));
    PlayThen(w, [Incr(i)], AskTtl(i));
    PlayThen(w, [Incr(i)] + [AskTtl(i)], SetTtl(i));
  }

  /** With nothing in between, the attempt is judged by the count it found, and the key has a TTL. */
  lemma ReservingJudges(w: World, i: nat)
    requires IsAt(w, i, Waiting)
    ensures var a := Attempt(if Value(w) < CAP then Allowed else Refusing, w.window, Value(w) + 1, true, false, None);
      Play(w, Reserving(i)) == w.(key := Some(Value(w) + 1), ttl := true, attempts := w.attempts[i := a])
  {
    PlayReserving(w, i);
    ThreeSteps(w, i);
  }

  lemma ThreeSteps(w: World, i: nat)
    requires IsAt(w, i, Waiting)
    ensures var a := Attempt(if Value(w) < CAP then Allowed else Refusing, w.window, Value(w) + 1, true, false, None);
      Next(Next(Next(w, Incr(i)), AskTtl(i)), SetTtl(i))
      == w.(key := Some(Value(w) + 1), ttl := true, attempts := w.attempts[i := a])
  {
    var a := Attempt(Counted, w.window, Value(w) + 1, true, false, None);
    var counted := w.(key := Some(Value(w) + 1), attempts := w.attempts[i := a]);
    var b := a.(phase := Asked(a.count == 1 || !w.ttl, w.window));
    Counts(w, i);
    Asks(counted, i, w.attempts);
    Sets(counted.(attempts := w.attempts[i := b]), i, w.attempts);
  }

  lemma Counts(w: World, i: nat)
    requires IsAt(w, i, Waiting)
    ensures var a := Attempt(Counted, w.window, Value(w) + 1, true, false, None);
      Next(w, Incr(i)) == w.(key := Some(Value(w) + 1), attempts := w.attempts[i := a])
  {
  }

  lemma Asks(v: World, i: nat, was: seq<Attempt>)
    requires IsAt(v, i, Counted) && i < |was| && v.attempts == was[i := v.attempts[i]]
    ensures var a := v.attempts[i];
      Next(v, AskTtl(i)) == v.(attempts := was[i := a.(phase := Asked(a.count == 1 || !v.ttl, v.window))])
  {
  }

  lemma Sets(v: World, i: nat, was: seq<Attempt>)
    requires i < |v.attempts| && i < |was| && v.attempts == was[i := v.attempts[i]]
    requires v.attempts[i].phase.Asked? && v.key.Some? && (v.ttl || v.attempts[i].phase.needsTtl)
    ensures var a := v.attempts[i];
      Next(v, SetTtl(i)) == v.(ttl := true, attempts := was[i := a.(phase := Judged(a))])
  {
  }

  lemma GuessCompares(w: World, i: nat)
    requires IsAt(w, i, Waiting) && Value(w) < CAP && w.account
    ensures var a := Attempt(Finished, w.window, Value(w) + 1, true, true, None);
      Play(w, Guess(i)) == w.(key := Some(Value(w) + 1), ttl := true, attempts := w.attempts[i := a])
  {
    ReservingJudges(w, i);
    PlayThen(w, Reserving(i), Look(i));
    PlayThen(w, Reserving(i) + [Look(i)], Compare(i, false));
  }

  /** Guesses of the attempts 1 to n. */
  function Guesses(n: nat): seq<Action> {
    if n == 0 then [] else Guesses(n - 1) + Guess(n)
  }

  /** What n guesses have come to. */
  ghost predicate HaveCompared(w: World, v: World, n: nat) {
    && Value(v) == n && v.window == w.window && v.strays == w.strays && v.account && |v.attempts| == |w.attempts|
    && (forall k :: 0 <= k < |w.attempts| && !(1 <= k <= n) ==> v.attempts[k] == w.attempts[k])
    && Count(v.attempts, ComparedIn(w.window)) == Count(w.attempts, ComparedIn(w.window)) + n
  }

  lemma OneMoreGuess(w: World, v: World, n: nat)
    requires HaveCompared(w, v, n) && n < CAP && n + 1 < |w.attempts| && w.attempts[n + 1] == UNTRIED
    ensures HaveCompared(w, Play(v, Guess(n + 1)), n + 1)
  {
    GuessCompares(v, n + 1);
    CountUpdate(v.attempts, n + 1, Attempt(Finished, v.window, n + 1, true, true, None), ComparedIn(w.window));
  }

  lemma {:induction false} GuessesCompare(w: World, n: nat)
    requires n < |w.attempts| && Value(w) == 0 && n <= CAP && w.account
    requires forall k :: 1 <= k <= n ==> w.attempts[k] == UNTRIED
    ensures HaveCompared(w, Play(w, Guesses(n)), n)
  {
    if n > 0 {
      GuessesCompare(w, n - 1);
      PlayConcat(w, Guesses(n - 1), Guess(n));
      OneMoreGuess(w, Play(w, Guesses(n - 1)), n - 1);
    }
  }

  /** Attempt 0 reserves, finds no account to check against, and has not given its hit back when its window ends. */
  function Lingering(): seq<Action> {
    [SetAccount(false)] + (Reserving(0) + [Look(0)]) + ([SetAccount(true)] + [Expire])
  }

  lemma LooksInVain(w: World, i: nat)
    requires IsAt(w, i, Waiting) && Value(w) < CAP && !w.account
    ensures Play(w, Reserving(i) + [Look(i)])
         == w.(key := Some(Value(w) + 1), ttl := true,
               attempts := w.attempts[i := Attempt(Releasing, w.window, Value(w) + 1, true, false, None)])
  {
    ReservingJudges(w, i);
    PlayThen(w, Reserving(i), Look(i));
    var a := Attempt(Allowed, w.window, Value(w) + 1, true, false, None);
    assert w.attempts[i := a][i := a.(phase := Releasing)] == w.attempts[i := a.(phase := Releasing)];
  }

  lemma WindowEnds(w: World)
    requires w.ttl
    ensures Play(w, [SetAccount(true)] + [Expire]) == NewWindow(w.(account := true))
  {
    PlayOne(w, SetAccount(true));
    PlayThen(w, [SetAccount(true)], Expire);
  }

  lemma Lingers(start: World)
    requires Fresh(start) && |start.attempts| > 0
    ensures Play(start, Lingering()) == World(None, false, 1, [0, 0], start.hash, true,
                                              start.attempts[0 := Attempt(Releasing, 0, 1, true, false, None)])
  {
    var w := start.(account := false);
    var u := w.(key := Some(1), ttl := true,
                attempts := w.attempts[0 := Attempt(Releasing, 0, 1, true, false, None)]);
    assert Play(start, [SetAccount(false)]) == w by {
      PlayOne(start, SetAccount(false));
    }
    LooksInVain(w, 0);
    WindowEnds(u);
    InThree(start, [SetAccount(false)], Reserving(0) + [Look(0)], [SetAccount(true)] + [Expire]);
  }

  /** Then a full window of guesses, the hit that attempt 0 gives back, and one guess more. */
  function FullWindow(): seq<Action> {
    Lingering() + Guesses(CAP)
  }

  lemma WindowFills(start: World)
    requires Fresh(start) && |start.attempts| >= 7
    ensures var w := Play(start, FullWindow());
      && IsAt(w, 0, Releasing) && IsAt(w, 6, Waiting) && w.attempts[0].window == 0 && w.window == 1
          && w.strays == [0, 0]
      && Value(w) == CAP && w.account && w.attempts[6] == UNTRIED && Count(w.attempts, ComparedIn(1)) == CAP
  {
    PlayConcat(start, Lingering(), Guesses(CAP));
    Lingers(start);
    var w := World(None, false, 1, [0, 0], start.hash, true,
                   start.attempts[0 := Attempt(Releasing, 0, 1, true, false, None)]);
    NoneCompared(start, w.attempts[0]);
    GuessesCompare(w, CAP);
  }

  lemma NoneCompared(start: World, a: Attempt)
    requires Fresh(start) && |start.attempts| > 0 && !a.compared
    ensures Count(start.attempts[0 := a], ComparedIn(1)) == 0
  {
    var attempts := start.attempts[0 := a];
    forall b | b in attempts ensures !b.compared {
      var k :| 0 <= k < |attempts| && attempts[k] == b;
    }
    CountNone(attempts, ComparedIn(1));
  }

  /** Six passwords are compared in the second window, one more than the cap: as many as the bound allows. */
  lemma BoundIsMet(start: World)
    requires Fresh(start) && |start.attempts| >= 7
    ensures var w := Play(start, FullWindow() + [GiveBack(0)] + Guess(6));
      w.window == 1 && w.strays == [0, 1] && Count(w.attempts, ComparedIn(1)) == CAP + w.strays[1]
  {
    PlayConcat(start, FullWindow() + [GiveBack(0)], Guess(6));
    PlayThen(start, FullWindow(), GiveBack(0));
    WindowFills(start);
    var w := Play(start, FullWindow());
    OneMoreCompares(w, Next(w, GiveBack(0)));
  }

  lemma OneMoreCompares(w: World, v: World)
    requires IsAt(w, 0, Releasing) && w.attempts[0].window == 0 && w.window == 1 && w.strays == [0, 0]
        && Value(w) == CAP
    requires |w.attempts| > 6 && w.attempts[6] == UNTRIED && w.account && Count(w.attempts, ComparedIn(1)) == CAP
    requires v == Next(w, GiveBack(0))
    ensures var u := Play(v, Guess(6));
      u.window == 1 && u.strays == [0, 1] && Count(u.attempts, ComparedIn(1)) == CAP + 1
  {
    CountUpdate(w.attempts, 0, v.attempts[0], ComparedIn(1));
    assert v.attempts == w.attempts[0 := v.attempts[0]];
    GuessCompares(v, 6);
    CountUpdate(v.attempts, 6, Attempt(Finished, 1, CAP, true, true, None), ComparedIn(1));
  }

  // ----- one write per hash ------------------------------------------------------------------------------------

  /** Hashes are replaced once: every one replaced is older than the stored one. */
  predicate SwapFits(w: World, a: Attempt) {
    && (a.replaced.Some? ==> a.replaced.value < w.hash)
    && (a.phase.Loaded? ==> a.phase.hash <= w.hash)
    && (a.phase.Writing? ==> a.phase.hash <= w.hash)
    && (a.phase == Waiting || a.phase.Loaded? || a.phase.Writing? || a.phase == Allowed || a.phase == Counted
        || a.phase.Asked?
        ==> a.replaced == None)
  }

  predicate ReplacedOnce(attempts: seq<Attempt>) {
    forall i, j :: 0 <= i < j < |attempts| && attempts[i].replaced.Some?
        ==> attempts[i].replaced != attempts[j].replaced
  }

  predicate SwapInv(w: World) {
    ReplacedOnce(w.attempts) && forall i :: 0 <= i < |w.attempts| ==> SwapFits(w, w.attempts[i])
  }

  /** One attempt changes, and what it replaced stays, or is the stored hash that its write replaces. */
  lemma OneSwap(w: World, next: World, i: nat)
    requires SwapInv(w) && i < |w.attempts| && |next.attempts| == |w.attempts|
    requires next.attempts == w.attempts[i := next.attempts[i]] && next.hash >= w.hash
        && SwapFits(next, next.attempts[i])
    requires next.attempts[i].replaced.Some? ==>
               next.attempts[i].replaced == w.attempts[i].replaced || next.attempts[i].replaced == Some(w.hash)
    ensures SwapInv(next)
  {
    forall k | 0 <= k < |w.attempts| ensures SwapFits(next, next.attempts[k]) {
      assert SwapFits(w, w.attempts[k]);
    }
    forall j, k | 0 <= j < k < |w.attempts| && next.attempts[j].replaced.Some?
      ensures next.attempts[j].replaced != next.attempts[k].replaced
    {
      assert SwapFits(w, w.attempts[j]) && SwapFits(w, w.attempts[k]);
    }
  }

  predicate HasAttempt(a: Action) {
    !a.Expire? && !a.WriteOther? && !a.SetAccount?
  }

  lemma NextIsOneSwap(w: World, a: Action)
    requires HasAttempt(a) && a.i < |w.attempts| && SwapFits(w, w.attempts[a.i])
    ensures var next, i := Next(w, a), a.i;
      && |next.attempts| == |w.attempts| && next.attempts == w.attempts[i := next.attempts[i]]
      && next.hash >= w.hash && SwapFits(next, next.attempts[i])
      && (next.attempts[i].replaced.Some? ==>
            next.attempts[i].replaced == w.attempts[i].replaced || next.attempts[i].replaced == Some(w.hash))
  {
    if a.Write? {
      WriteIsOneSwap(w, a.i);
    } else {
      OtherIsOneSwap(w, a);
    }
  }

  lemma WriteIsOneSwap(w: World, i: nat)
    requires i < |w.attempts| && SwapFits(w, w.attempts[i])
    ensures var next := Next(w, Write(i));
      && |next.attempts| == |w.attempts| && next.attempts == w.attempts[i := next.attempts[i]]
      && next.hash >= w.hash && SwapFits(next, next.attempts[i])
      && (next.attempts[i].replaced.Some? ==>
            next.attempts[i].replaced == w.attempts[i].replaced || next.attempts[i].replaced == Some(w.hash))
  {
  }

  /** No other action of an attempt replaces a hash. */
  lemma OtherIsOneSwap(w: World, a: Action)
    requires HasAttempt(a) && !a.Write? && a.i < |w.attempts| && SwapFits(w, w.attempts[a.i])
    ensures var next, i := Next(w, a), a.i;
      && |next.attempts| == |w.attempts| && next.attempts == w.attempts[i := next.attempts[i]]
      && next.hash == w.hash && SwapFits(next, next.attempts[i])
      && (next.attempts[i].replaced == w.attempts[i].replaced || next.attempts[i].replaced == None)
  {
    if a.Incr? || a.AskTtl? || a.SetTtl? || a.Look? || a.Compare? || a.Halt? {
      StepIsOneSwap(w, a);
    }
  }

  lemma StepIsOneSwap(w: World, a: Action)
    requires a.Incr? || a.AskTtl? || a.SetTtl? || a.Look? || a.Compare? || a.Halt?
    requires a.i < |w.attempts| && SwapFits(w, w.attempts[a.i])
    ensures var next, i := Next(w, a), a.i;
      && |next.attempts| == |w.attempts| && next.attempts == w.attempts[i := next.attempts[i]]
      && next.hash == w.hash && SwapFits(next, next.attempts[i])
      && (next.attempts[i].replaced == w.attempts[i].replaced || next.attempts[i].replaced == None)
  {
  }

  lemma NextKeepsSwap(w: World, a: Action)
    requires SwapInv(w)
    ensures SwapInv(Next(w, a))
  {
    if HasAttempt(a) {
      if a.i < |w.attempts| {
        NextIsOneSwap(w, a);
        OneSwap(w, Next(w, a), a.i);
      }
    } else {
      forall k | 0 <= k < |w.attempts| ensures SwapFits(Next(w, a), w.attempts[k]) {
        assert SwapFits(w, w.attempts[k]);
      }
    }
  }

  lemma {:induction false} PlayKeepsSwap(start: World, actions: seq<Action>)
    requires Fresh(start)
    ensures SwapInv(Play(start, actions))
  {
    if actions != [] {
      var n := |actions| - 1;
      PlayKeepsSwap(start, actions[..n]);
      NextKeepsSwap(Play(start, actions[..n]), actions[n]);
    }
  }

  /** Of the changes that compared against the same stored hash, at most one writes. */
  lemma AtMostOneReplaces(start: World, actions: seq<Action>)
    requires Fresh(start)
    ensures ReplacedOnce(Play(start, actions).attempts)
  {
    PlayKeepsSwap(start, actions);
  }

  // ----- the limiter's three operations ------------------------------------------------------------------------

  /** The key alone. */
  datatype Counter = Counter(key: Option<int>, ttl: bool)

  function Amount(c: Counter): int {
    if c.key.Some? then c.key.value else 0
  }

  function CounterOf(w: World): Counter {
    Counter(w.key, w.ttl)
  }

  /** After a reservation, admitted or given back. */
  function Reserved(c: Counter): Counter {
    Counter(Some(if Amount(c) < CAP then Amount(c) + 1 else Amount(c)), true)
  }

  /** After a release. */
  function Released(c: Counter): Counter {
    if Amount(c) <= 1 then Counter(None, false) else Counter(Some(Amount(c) - 1), c.ttl)
  }

  /** The counter in Redis, and the limiter's operations on it when no other request comes between. */
  class Limiter {
    var key: Option<int>
    var ttl: bool

    function Current(): Counter
      reads this
    {
      Counter(key, ttl)
    }

    predicate Valid()
      reads this
    {
      ttl ==> key.Some?
    }

    constructor ()
      ensures Valid() && key == None
    {
      key, ttl := None, false;
    }

    method Add(units: int) returns (now: int)
      requires Valid()
      modifies this`key
      ensures Valid() && key == Some(old(Amount(Current())) + units) && now == Amount(Current())
    {
      now := Amount(Current()) + units;
      key := Some(now);
    }

    method Del()
      modifies this
      ensures Valid() && key == None && !ttl
    {
      key, ttl := None, false;
    }

    /** reservePasswordChangeAttempt: a refused attempt is given back at once. */
    method Reserve() returns (allowed: bool)
      requires Valid()
      modifies this
      ensures Valid() && Current() == Reserved(old(Current()))
      ensures allowed == (old(Amount(Current())) < CAP)
    {
      var count := Add(1);
      if count == 1 || !ttl {
        ttl := true;
      }
      allowed := count <= CAP;
      if !allowed {
        var _ := Add(-1);
      }
    }

    /** releasePasswordChangeAttempt: no negative counter is left behind. */
    method Release()
      requires Valid()
      modifies this
      ensures Valid() && Current() == Released(old(Current()))
    {
      var now := Add(-1);
      if now <= 0 {
        Del();
      }
    }

    /** resetPasswordChangeFailures */
    method Reset()
      modifies this
      ensures Valid() && key == None
    {
      Del();
    }
  }

  /** The class's Reserve does to the key what the attempt's actions do with nothing in between. */
  lemma ReserveIsPlayed(w: World, i: nat)
    requires IsAt(w, i, Waiting)
    ensures var after := Play(w, Reserving(i) + [Refuse(i)]);
      && CounterOf(after) == Reserved(CounterOf(w)) && |after.attempts| == |w.attempts|
      && after.attempts[i].phase == (if Amount(CounterOf(w)) < CAP then Allowed else Finished)
  {
    ReservingJudges(w, i);
    PlayThen(w, Reserving(i), Refuse(i));
  }

  /** So does its Release. */
  lemma ReleaseIsPlayed(w: World, i: nat)
    requires IsAt(w, i, Releasing)
    ensures CounterOf(Play(w, [GiveBack(i)] + [DeleteKey(i)])) == Released(CounterOf(w))
  {
    PlayOne(w, GiveBack(i));
    PlayThen(w, [GiveBack(i)], DeleteKey(i));
  }
}
