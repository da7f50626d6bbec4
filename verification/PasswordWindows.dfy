/**
 * How many passwords are compared while no TTL runs out: a window of the password-change limiter also
 * ends when its key is deleted (apps/auth/src/services/password-change-rate-limit.ts).
 */
module PasswordWindows {
  import opened Options
  import opened PasswordLimiter

  /** Attempts counted in the n windows from `first` on whose password was compared. */
  function ComparedFrom(first: nat, n: nat): Attempt -> bool {
    (a: Attempt) => a.compared && first <= a.window < first + n
  }

  /** The strays made in these windows. */
  function StraysFrom(strays: seq<nat>, first: nat, n: nat): nat
    requires first + n <= |strays|
  {
    if n == 0 then 0 else StraysFrom(strays, first, n - 1) + strays[first + n - 1]
  }

  lemma {:induction false} CountSplits(attempts: seq<Attempt>, first: nat, n: nat)
    ensures Count(attempts, ComparedFrom(first, n + 1))
         == Count(attempts, ComparedFrom(first, n)) + Count(attempts, ComparedIn(first + n))
  {
    if attempts != [] {
      CountSplits(attempts[..|attempts| - 1], first, n);
    }
  }

  predicate IsBounded(attempts: seq<Attempt>, strays: seq<nat>, e: nat) {
    e < |strays| ==> Count(attempts, ComparedIn(e)) <= CAP + strays[e]
  }

  lemma {:induction false} SumOfBounds(attempts: seq<Attempt>, strays: seq<nat>, first: nat, n: nat)
    requires first + n <= |strays| && forall e: nat :: IsBounded(attempts, strays, e)
    ensures Count(attempts, ComparedFrom(first, n)) <= CAP * n + StraysFrom(strays, first, n)
  {
    if n == 0 {
      CountNone(attempts, ComparedFrom(first, 0));
    } else {
      SumOfBounds(attempts, strays, first, n - 1);
      assert IsBounded(attempts, strays, first + n - 1);
      CountSplits(attempts, first, n - 1);
    }
  }

  lemma ComparesOver(start: World, actions: seq<Action>, first: nat, n: nat)
    requires Fresh(start) && first + n <= Play(start, actions).window + 1
    ensures var w := Play(start, actions);
      && |w.strays| == w.window + 1
      && Count(w.attempts, ComparedFrom(first, n)) <= CAP * n + StraysFrom(w.strays, first, n)
  {
    var w := Play(start, actions);
    CountIsStanding(start, actions);
    forall e: nat ensures IsBounded(w.attempts, w.strays, e) {
      if e <= w.window {
        ComparesBounded(start, actions, e);
      }
    }
    SumOfBounds(w.attempts, w.strays, first, n);
  }

  predicate IsDel(a: Action) {
    a.Clear? || a.DeleteKey?
  }

  function Dels(actions: seq<Action>): nat {
    if actions == [] then 0 else Dels(actions[..|actions| - 1]) + (if IsDel(actions[|actions| - 1]) then 1 else 0)
  }

  /** Without an expiry only a DEL ends a window. */
  lemma {:induction false} WindowsOfDels(w: World, actions: seq<Action>)
    requires Expire !in actions
    ensures w.window <= Play(w, actions).window <= w.window + Dels(actions)
  {
    if actions != [] {
      var n := |actions| - 1;
      assert actions[n] in actions && Expire !in actions[..n];
      WindowsOfDels(w, actions[..n]);
      WindowOfNext(Play(w, actions[..n]), actions[n]);
    }
  }

  lemma WindowOfNext(w: World, a: Action)
    requires !a.Expire?
    ensures w.window <= Next(w, a).window <= w.window + (if IsDel(a) then 1 else 0)
  {
  }

  lemma FiveTimes(m: nat, n: nat)
    requires m <= n
    ensures CAP * m <= CAP * n
  {
  }

  /**
   * While no TTL runs out, at most five attempts compare, five more for each DEL, of a changed password
   * or of a hit given back, and one more for each stray.
   */
  lemma ComparesInPeriod(start: World, before: seq<Action>, during: seq<Action>)
    requires Fresh(start) && Expire !in during
    ensures var first, w := Play(start, before).window, Play(start, before + during);
      && first <= w.window && |w.strays| == w.window + 1
      && Count(w.attempts, ComparedFrom(first, w.window + 1 - first))
         <= CAP * (1 + Dels(during)) + StraysFrom(w.strays, first, w.window + 1 - first)
  {
    var first, w := Play(start, before).window, Play(start, before + during);
    PlayConcat(start, before, during);
    WindowsOfDels(Play(start, before), during);
    ComparesOver(start, before + during, first, w.window + 1 - first);
    FiveTimes(w.window + 1 - first, 1 + Dels(during));
  }

  // ----- a DEL that wipes hits ------------------------------------------------------------------------------

  /** Attempt 0 reserves, finds no account to check against, and gives its hit back; its DEL is to come. */
  function GivingBack(): seq<Action> {
    [SetAccount(false)] + (Reserving(0) + [Look(0)]) + ([GiveBack(0)] + [SetAccount(true)])
  }

  lemma HitGivenBack(u: World)
    requires IsAt(u, 0, Releasing) && Value(u) == 1 && u.attempts[0].window == u.window
    ensures Play(u, [GiveBack(0)] + [SetAccount(true)])
         == u.(key := Some(0), account := true,
               attempts := u.attempts[0 := u.attempts[0].(phase := Deleting, hit := false)])
  {
    var a := u.attempts[0].(hit := false);
    PlayOne(u, GiveBack(0));
    assert u.attempts[0 := a][0 := a.(phase := Deleting)] == u.attempts[0 := a.(phase := Deleting)];
    PlayThen(u, [GiveBack(0)], SetAccount(true));
  }

  lemma GivesBack(start: World)
    requires Fresh(start) && |start.attempts| > 0
    ensures Play(start, GivingBack()) == World(Some(0), true, 0, [0], start.hash, true,
                                               start.attempts[0 := Attempt(Deleting, 0, 1, false, false, None)])
  {
    var w := start.(account := false);
    var u := w.(key := Some(1), ttl := true,
                attempts := w.attempts[0 := Attempt(Releasing, 0, 1, true, false, None)]);
    assert Play(start, [SetAccount(false)]) == w by {
      PlayOne(start, SetAccount(false));
    }
    LooksInVain(w, 0);
    HitGivenBack(u);
    InThree(start, [SetAccount(false)], Reserving(0) + [Look(0)], [GiveBack(0)] + [SetAccount(true)]);
  }

  /** Five guesses, the DEL, and one guess more. */
  function WipedWindow(): seq<Action> {
    GivingBack() + Guesses(CAP) + [DeleteKey(0)] + Guess(6)
  }

  /** The counts in the two windows, before the DEL. */
  lemma FullBeforeDel(start: World)
    requires Fresh(start) && |start.attempts| >= 7
    ensures var v := Play(start, GivingBack() + Guesses(CAP));
      && v.window == 0 && v.strays == [0] && v.account && |v.attempts| == |start.attempts|
      && IsAt(v, 0, Deleting) && v.attempts[6] == UNTRIED
      && Count(v.attempts, ComparedIn(0)) == CAP && Count(v.attempts, ComparedIn(1)) == 0
  {
    var a := Attempt(Deleting, 0, 1, false, false, None);
    GivesBack(start);
    PlayConcat(start, GivingBack(), Guesses(CAP));
    PlayKeepsInv(start, GivingBack() + Guesses(CAP));
    FullAfterGuesses(World(Some(0), true, 0, [0], start.hash, true, start.attempts[0 := a]));
  }

  lemma FullAfterGuesses(w: World)
    requires |w.attempts| >= 7 && Value(w) == 0 && w.account && w.window == 0 && Inv(Play(w, Guesses(CAP)))
    requires w.attempts[0].phase == Deleting && !w.attempts[0].compared
    requires forall k :: 1 <= k < |w.attempts| ==> w.attempts[k] == UNTRIED
    ensures var v := Play(w, Guesses(CAP));
      && v.window == 0 && v.strays == w.strays && v.account && |v.attempts| == |w.attempts|
      && IsAt(v, 0, Deleting) && v.attempts[6] == UNTRIED
      && Count(v.attempts, ComparedIn(0)) == CAP && Count(v.attempts, ComparedIn(1)) == 0
  {
    assert Count(w.attempts, ComparedIn(0)) == 0 by {
      NothingCompared(w.attempts);
    }
    assert HaveCompared(w, Play(w, Guesses(CAP)), CAP) by {
      GuessesCompare(w, CAP);
    }
    assert Count(Play(w, Guesses(CAP)).attempts, ComparedIn(1)) == 0 by {
      NoneLater(Play(w, Guesses(CAP)));
    }
  }

  lemma NothingCompared(attempts: seq<Attempt>)
    requires forall k :: 0 <= k < |attempts| ==> !attempts[k].compared
    ensures Count(attempts, ComparedIn(0)) == 0
  {
    forall a | a in attempts ensures !a.compared {
      var k :| 0 <= k < |attempts| && attempts[k] == a;
    }
    CountNone(attempts, ComparedIn(0));
  }

  lemma NoneLater(w: World)
    requires Inv(w)
    ensures Count(w.attempts, ComparedIn(w.window + 1)) == 0
  {
    forall a | a in w.attempts ensures a.window <= w.window {
      var k :| 0 <= k < |w.attempts| && w.attempts[k] == a;
      assert Fits(w, w.attempts[k]);
    }
    CountNone(w.attempts, ComparedIn(w.window + 1));
  }

  lemma OneMoreAfterDel(v: World)
    requires v.window == 0 && v.strays == [0] && v.account && |v.attempts| > 6
    requires IsAt(v, 0, Deleting) && v.attempts[6] == UNTRIED
    requires Count(v.attempts, ComparedIn(0)) == CAP && Count(v.attempts, ComparedIn(1)) == 0
    ensures var u := Play(Next(v, DeleteKey(0)), Guess(6));
      && u.window == 1 && u.strays == [0, 0]
      && Count(u.attempts, ComparedIn(0)) == CAP && Count(u.attempts, ComparedIn(1)) == 1
  {
    var w := Next(v, DeleteKey(0));
    var a, b := v.attempts[0].(phase := Finished), Attempt(Finished, 1, 1, true, true, None);
    CountUpdate(v.attempts, 0, a, ComparedIn(0));
    CountUpdate(v.attempts, 0, a, ComparedIn(1));
    GuessCompares(w, 6);
    CountUpdate(w.attempts, 6, b, ComparedIn(0));
    CountUpdate(w.attempts, 6, b, ComparedIn(1));
  }

  /**
   * Six passwords are compared without an expiry and without a stray: the DEL of a hit given back, a
   * call of its own, also wipes the hits of the guesses made since its DECR.
   */
  lemma DelWipesHits(start: World)
    requires Fresh(start) && |start.attempts| >= 7
    ensures Expire !in WipedWindow() && Dels(WipedWindow()) == 1
    ensures var w := Play(start, WipedWindow());
      w.window == 1 && w.strays == [0, 0] && Count(w.attempts, ComparedFrom(0, 2)) == CAP + 1
  {
    FullBeforeDel(start);
    PlayThen(start, GivingBack() + Guesses(CAP), DeleteKey(0));
    PlayConcat(start, GivingBack() + Guesses(CAP) + [DeleteKey(0)], Guess(6));
    OneMoreAfterDel(Play(start, GivingBack() + Guesses(CAP)));
    TwoWindows(Play(start, WipedWindow()).attempts);
    OneDel();
  }

  lemma TwoWindows(attempts: seq<Attempt>)
    ensures Count(attempts, ComparedFrom(0, 2)) == Count(attempts, ComparedIn(0)) + Count(attempts, ComparedIn(1))
  {
    CountNone(attempts, ComparedFrom(0, 0));
    CountSplits(attempts, 0, 0);
    CountSplits(attempts, 0, 1);
  }

  lemma {:induction false} DelsConcat(a: seq<Action>, b: seq<Action>)
    ensures Dels(a + b) == Dels(a) + Dels(b)
    decreases |b|
  {
    if b == [] {
      assert a + b == a;
    } else {
      var n := |b| - 1;
      DelsConcat(a, b[..n]);
      assert (a + b)[..|a + b| - 1] == a + b[..n];
    }
  }

  lemma {:induction false} NoDelInGuesses(n: nat)
    ensures Dels(Guesses(n)) == 0 && Expire !in Guesses(n)
  {
    if n > 0 {
      NoDelInGuesses(n - 1);
      NoDelInGuess(n);
      DelsConcat(Guesses(n - 1), Guess(n));
    }
  }

  lemma {:induction false} NoDelHere(actions: seq<Action>)
    requires forall a :: a in actions ==> !IsDel(a)
    ensures Dels(actions) == 0
  {
    if actions != [] {
      var n := |actions| - 1;
      assert actions[n] in actions && forall a :: a in actions[..n] ==> a in actions;
      NoDelHere(actions[..n]);
    }
  }

  lemma NoDelInGuess(i: nat)
    ensures Dels(Guess(i)) == 0 && Expire !in Guess(i)
  {
    NoDelHere(Guess(i));
  }

  lemma OneDel()
    ensures Expire !in WipedWindow() && Dels(WipedWindow()) == 1
  {
    NoDelHere(GivingBack());
    NoDelInGuesses(CAP);
    NoDelInGuess(6);
    DelsConcat(GivingBack(), Guesses(CAP));
    DelsConcat(GivingBack() + Guesses(CAP), [DeleteKey(0)]);
    assert [DeleteKey(0)][..0] == [];
    DelsConcat(GivingBack() + Guesses(CAP) + [DeleteKey(0)], Guess(6));
  }
}
