/**
 * When a password change is written (changePassword and checkAndSetPassword in
 * apps/auth/src/services/auth.service.ts), and how an attempt settles its hit, whatever other attempts do
 * in between.
 */
module PasswordWrites {
  import opened Options
  import opened PasswordLimiter

  /** Nothing that attempt i does itself. */
  predicate ByOthers(actions: seq<Action>, i: nat) {
    forall a :: a in actions ==> !(HasAttempt(a) && a.i == i)
  }

  lemma OtherLeavesAttempt(w: World, a: Action, i: nat)
    requires i < |w.attempts| && !(HasAttempt(a) && a.i == i)
    ensures |Next(w, a).attempts| == |w.attempts| && Next(w, a).attempts[i] == w.attempts[i]
  {
  }

  lemma {:induction false} OthersLeaveAttempt(w: World, actions: seq<Action>, i: nat)
    requires i < |w.attempts| && ByOthers(actions, i)
    ensures |Play(w, actions).attempts| == |w.attempts| && Play(w, actions).attempts[i] == w.attempts[i]
  {
    if actions != [] {
      var n := |actions| - 1;
      assert actions[n] in actions && forall a :: a in actions[..n] ==> a in actions;
      OthersLeaveAttempt(w, actions[..n], i);
      OtherLeavesAttempt(Play(w, actions[..n]), actions[n], i);
    }
  }

  // ----- the right password --------------------------------------------------------------------------------

  /**
   * An attempt whose password is right for the hash it loaded, with whatever others do before its write:
   * the write replaces that hash when the account is still there and that hash is still stored, and nothing
   * otherwise; its hit stays till then.
   */
  lemma RightPasswordWrites(w: World, i: nat, h: nat, during: seq<Action>)
    requires IsAt(w, i, Loaded(h)) && ByOthers(during, i)
    ensures var v := Play(Next(w, Compare(i, true)), during);
      var u := Next(v, Write(i));
      && |v.attempts| == |u.attempts| == |w.attempts| && u.key == v.key && u.window == v.window
      && u.attempts[i].hit == w.attempts[i].hit && u.attempts[i].compared
      && (if v.account && v.hash == h
          then u.hash == h + 1 && u.attempts[i].replaced == Some(h) && u.attempts[i].phase == Clearing
          else u.hash == v.hash && u.attempts[i].replaced == w.attempts[i].replaced && u.attempts[i].phase == Finished)
  {
    OthersLeaveAttempt(Next(w, Compare(i, true)), during, i);
  }

  /** A change clears the count, whatever others did since. */
  lemma ChangeClears(w: World, i: nat, during: seq<Action>)
    requires IsAt(w, i, Clearing) && ByOthers(during, i)
    ensures var v := Play(w, during);
      var u := Next(v, Clear(i));
      && u.key == None && u.window == v.window + 1 && |u.attempts| == |w.attempts|
      && u.attempts[i] == w.attempts[i].(phase := Finished)
  {
    OthersLeaveAttempt(w, during, i);
  }

  /** A wrong password replaces nothing, ever, and keeps its hit. */
  lemma WrongKeepsHit(w: World, i: nat, h: nat, later: seq<Action>)
    requires IsAt(w, i, Loaded(h))
    ensures var v := Play(Next(w, Compare(i, false)), later);
      && |v.attempts| == |w.attempts|
      && v.attempts[i] == w.attempts[i].(phase := Finished, compared := true)
  {
    FinishedStays(Next(w, Compare(i, false)), later, i);
  }

  /** Without an account to check against the hit is given back, and no compare is made. */
  lemma NoAccountGivesBack(w: World, i: nat, during: seq<Action>, later: seq<Action>)
    requires IsAt(w, i, Allowed) && !w.account && ByOthers(during, i)
    ensures var v := Play(Next(w, Look(i)), during);
      && IsAt(v, i, Releasing) && Value(Next(v, GiveBack(i))) == Value(v) - 1
      && |Next(v, GiveBack(i)).attempts| == |w.attempts|
      && var a := Next(v, GiveBack(i)).attempts[i];
         !a.hit && a.compared == w.attempts[i].compared && a.phase == (if Value(v) <= 1 then Deleting else Finished)
  {
    OthersLeaveAttempt(Next(w, Look(i)), during, i);
  }

  // ----- only the right password -----------------------------------------------------------------------------

  /** Action k of the history is the attempt's compare, found right against `h`. */
  predicate RightAt(start: World, actions: seq<Action>, i: nat, h: nat, k: nat) {
    k < |actions| && actions[k] == Compare(i, true) && IsAt(Play(start, actions[..k]), i, Loaded(h))
  }

  /** Action m of the history is the attempt's read of the user, who had the hash `h` then. */
  predicate LoadedAt(start: World, actions: seq<Action>, i: nat, h: nat, m: nat) {
    && m < |actions| && actions[m] == Look(i)
    && Play(start, actions[..m]).hash == h && Play(start, actions[..m]).account
  }

  ghost predicate HadLoaded(start: World, actions: seq<Action>, i: nat, h: nat) {
    exists m: nat :: LoadedAt(start, actions, i, h, m)
  }

  ghost predicate WasRight(start: World, actions: seq<Action>, i: nat, h: nat) {
    HadLoaded(start, actions, i, h) && exists k: nat :: RightAt(start, actions, i, h, k)
  }

  /** What an attempt is about to replace, or has replaced, it was right about. */
  ghost predicate Justified(start: World, actions: seq<Action>, i: nat, a: Attempt) {
    && (a.phase.Loaded? ==> HadLoaded(start, actions, i, a.phase.hash))
    && (a.phase.Writing? ==> WasRight(start, actions, i, a.phase.hash))
    && (a.replaced.Some? ==> WasRight(start, actions, i, a.replaced.value))
  }

  lemma JustifiedStays(start: World, actions: seq<Action>, i: nat, a: Attempt)
    requires actions != [] && Justified(start, actions[..|actions| - 1], i, a)
    ensures Justified(start, actions, i, a)
  {
    var before := actions[..|actions| - 1];
    forall h | HadLoaded(start, before, i, h) ensures HadLoaded(start, actions, i, h) {
      var m: nat :| LoadedAt(start, before, i, h, m);
      assert before[..m] == actions[..m];
      assert LoadedAt(start, actions, i, h, m);
    }
    forall h | WasRight(start, before, i, h) ensures WasRight(start, actions, i, h) {
      var k: nat :| RightAt(start, before, i, h, k);
      assert before[..k] == actions[..k];
      assert RightAt(start, actions, i, h, k);
    }
  }

  /** What one action of the attempt does to it. */
  lemma OwnAction(w: World, a: Action, i: nat)
    requires i < |w.attempts| && HasAttempt(a) && a.i == i
    ensures |Next(w, a).attempts| == |w.attempts|
    ensures var was, now := w.attempts[i], Next(w, a).attempts[i];
      && (now.phase.Loaded? ==> was.phase == now.phase || (a == Look(i) && now.phase.hash == w.hash && w.account))
      && (now.phase.Writing? ==>
            was.phase == now.phase || (a == Compare(i, true) && was.phase == Loaded(now.phase.hash)))
      && (now.replaced.Some? ==>
            was.replaced == now.replaced || (a == Write(i) && was.phase == Writing(now.replaced.value)))
  {
  }

  lemma OwnActionJustified(start: World, actions: seq<Action>, i: nat)
    requires actions != []
    requires var a := actions[|actions| - 1]; HasAttempt(a) && a.i == i
    requires i < |Play(start, actions[..|actions| - 1]).attempts|
    requires Justified(start, actions[..|actions| - 1], i, Play(start, actions[..|actions| - 1]).attempts[i])
    ensures i < |Play(start, actions).attempts| && Justified(start, actions, i, Play(start, actions).attempts[i])
  {
    var n := |actions| - 1;
    var w, a := Play(start, actions[..n]), actions[n];
    OwnAction(w, a, i);
    JustifiedStays(start, actions, i, w.attempts[i]);
    if a == Look(i) && w.account {
      assert LoadedAt(start, actions, i, w.hash, n);
    }
    if a == Compare(i, true) && w.attempts[i].phase.Loaded? {
      assert RightAt(start, actions, i, w.attempts[i].phase.hash, n);
    }
  }

  lemma {:induction false} PlayKeepsJustified(start: World, actions: seq<Action>, i: nat)
    requires Fresh(start) && i < |start.attempts|
    ensures i < |Play(start, actions).attempts| && Justified(start, actions, i, Play(start, actions).attempts[i])
  {
    if actions != [] {
      var n := |actions| - 1;
      PlayKeepsJustified(start, actions[..n], i);
      if HasAttempt(actions[n]) && actions[n].i == i {
        OwnActionJustified(start, actions, i);
      } else {
        OtherLeavesAttempt(Play(start, actions[..n]), actions[n], i);
        JustifiedStays(start, actions, i, Play(start, actions[..n]).attempts[i]);
      }
    }
  }

  /** In every history: whoever replaced a hash had loaded it from an account, and compared right against it. */
  lemma ReplacedWasRight(start: World, actions: seq<Action>, i: nat)
    requires Fresh(start) && i < |start.attempts|
    ensures var w := Play(start, actions);
      i < |w.attempts| && (w.attempts[i].replaced.Some? ==> WasRight(start, actions, i, w.attempts[i].replaced.value))
  {
    PlayKeepsJustified(start, actions, i);
  }
}
