/**
 * One run of the free-seed backfill over all candidates (classify and run in
 * apps/auth/scripts/backfill-free-seed.ts): the groups, the work list and the counts.
 */
module FreeSeedRun {
  import opened FreeSeed
  import opened Options
  import opened Prefixes

  datatype Class =
    | SkippedTest | SkippedErased | SkippedInactive | Unverified | SkippedPreSeed | SkippedHasRow
    | Manual | Ambiguous | InA | InB

  /**
   * A candidate as it is read: the user document, and the answers of the ledger reads. The balance is
   * none when it is no finite number; `readable` says that no read of the ledger fails.
   */
  datatype Doc = Doc(id: nat, test: bool, erased: bool, active: bool, verified: bool, marker: Option<int>,
                     createdAt: Option<int>, paid: bool, topup: Option<int>, hasRow: bool, pending: bool,
                     ledger: int, readable: bool)

  /** verificationDate: the marker, else createdAt. */
  function VerifiedAt(u: Doc): Option<int> {
    if u.marker.Some? then u.marker else u.createdAt
  }

  /** classify */
  function Classify(u: Doc, cutoff: int): Class {
    if u.test then SkippedTest
    else if u.erased then SkippedErased
    else if !u.active then SkippedInactive
    else if !u.verified then (if u.hasRow then SkippedHasRow else Unverified)
    else if VerifiedAt(u).None? || VerifiedAt(u).value < cutoff then SkippedPreSeed
    else if u.hasRow then SkippedHasRow
    else if u.paid then Manual
    else if u.topup.None? || u.pending then Ambiguous
    else if u.topup.value == u.ledger then InA
    else if u.topup.value - u.ledger == UNITS then InB
    else Ambiguous
  }

  /** The apply-time guards that the user document alone decides. */
  predicate MayBeSeeded(u: Doc) {
    !u.test && u.active && !u.erased && u.verified
  }

  /** A user to write, and how. */
  datatype Task = Task(id: nat, group: Group)

  /** What applyOne comes to for a user. */
  datatype Outcome = Written | Gone | Thrown

  const NO_CLASSES: map<Class, nat> := map[
    SkippedTest := 0, SkippedErased := 0, SkippedInactive := 0, Unverified := 0, SkippedPreSeed := 0,
    SkippedHasRow := 0, Manual := 0, Ambiguous := 0, InA := 0, InB := 0]

  predicate AllClasses(classes: map<Class, nat>) {
    forall c :: c in classes
  }

  lemma NoneCounted()
    ensures AllClasses(NO_CLASSES) && forall c :: NO_CLASSES[c] == 0
  {
    forall c ensures c in NO_CLASSES && NO_CLASSES[c] == 0 {
      match c
      case SkippedTest => case SkippedErased => case SkippedInactive => case Unverified => case SkippedPreSeed =>
      case SkippedHasRow => case Manual => case Ambiguous => case InA => case InB =>
    }
  }

  /** The ten group counts together. */
  function Total(classes: map<Class, nat>): nat
    requires AllClasses(classes)
  {
    classes[SkippedTest] + classes[SkippedErased] + classes[SkippedInactive] + classes[Unverified]
    + classes[SkippedPreSeed] + classes[SkippedHasRow] + classes[Manual] + classes[Ambiguous] + classes[InA]
        + classes[InB]
  }

  // ----- what each count is of -----------------------------------------------------------------------------

  function CountOf(docs: seq<Doc>, cutoff: int, c: Class): nat {
    if docs == [] then 0
    else
      var u := docs[|docs| - 1];
      CountOf(docs[..|docs| - 1], cutoff, c) + (if u.readable && Classify(u, cutoff) == c then 1 else 0)
  }

  function Unreadable(docs: seq<Doc>): nat {
    if docs == [] then 0 else Unreadable(docs[..|docs| - 1]) + (if docs[|docs| - 1].readable then 0 else 1)
  }

  /** The users to write, in the order of the cursor. */
  function WorkOf(docs: seq<Doc>, cutoff: int): seq<Task> {
    if docs == [] then []
    else
      var u := docs[|docs| - 1];
      WorkOf(docs[..|docs| - 1], cutoff)
      + (if u.readable && Classify(u, cutoff) == InA then [Task(u.id, A)]
         else if u.readable && Classify(u, cutoff) == InB then [Task(u.id, B)] else [])
  }

  // ----- what each group is ----------------------------------------------------------------------------------

  /** Not a test account, not erased, and active. */
  predicate IsLive(u: Doc) {
    !u.test && !u.erased && u.active
  }

  /** Verified, and dated on or after the cut-off by its marker, or by its creation when it has none. */
  predicate IsDated(u: Doc, cutoff: int) {
    u.verified && if u.marker.Some? then u.marker.value >= cutoff
                  else u.createdAt.Some? && u.createdAt.value >= cutoff
  }

  /** A live account of the seed's time, without its row and without a paid plan. */
  predicate IsOpen(u: Doc, cutoff: int) {
    IsLive(u) && IsDated(u, cutoff) && !u.hasRow && !u.paid
  }

  /** The balance is so far above the ledger, and no payment is pending. */
  predicate IsAbove(u: Doc, units: int) {
    !u.pending && u.topup == Some(u.ledger + units)
  }

  /** Each group, by what its members are. */
  lemma ClassMeaning(u: Doc, cutoff: int)
    ensures Classify(u, cutoff) == SkippedTest <==> u.test
    ensures Classify(u, cutoff) == SkippedErased <==> u.erased && !u.test
    ensures Classify(u, cutoff) == SkippedInactive <==> !u.active && !u.erased && !u.test
    ensures Classify(u, cutoff) == Unverified <==> IsLive(u) && !u.verified && !u.hasRow
    ensures Classify(u, cutoff) == SkippedPreSeed <==> IsLive(u) && u.verified && !IsDated(u, cutoff)
    ensures Classify(u, cutoff) == SkippedHasRow <==> IsLive(u) && u.hasRow && (u.verified ==> IsDated(u, cutoff))
    ensures Classify(u, cutoff) == Manual <==> IsLive(u) && IsDated(u, cutoff) && !u.hasRow && u.paid
    ensures Classify(u, cutoff) == InA <==> IsOpen(u, cutoff) && IsAbove(u, 0)
    ensures Classify(u, cutoff) == InB <==> IsOpen(u, cutoff) && IsAbove(u, 10)
    ensures Classify(u, cutoff) == Ambiguous <==> IsOpen(u, cutoff) && !IsAbove(u, 0) && !IsAbove(u, 10)
  {
  }

  /** A candidate of the group that could be read. */
  predicate IsOf(u: Doc, cutoff: int, c: Class) {
    u.readable && Classify(u, cutoff) == c
  }

  function Places(docs: seq<Doc>, cutoff: int, c: Class): set<nat> {
    set i: nat | i < |docs| && IsOf(docs[i], cutoff, c)
  }

  lemma PlacesStep(docs: seq<Doc>, u: Doc, cutoff: int, c: Class)
    ensures Places(docs + [u], cutoff, c)
         == Places(docs, cutoff, c) + (if IsOf(u, cutoff, c) then {|docs|} else {})
  {
  }

  /** They are as many as the run counts. */
  lemma {:induction false} CountMeaning(docs: seq<Doc>, cutoff: int, c: Class)
    ensures CountOf(docs, cutoff, c) == |Places(docs, cutoff, c)|
  {
    if docs != [] {
      var n := |docs| - 1;
      CountMeaning(docs[..n], cutoff, c);
      PlacesStep(docs[..n], docs[n], cutoff, c);
      assert docs == docs[..n] + [docs[n]];
      assert n !in Places(docs[..n], cutoff, c);
    }
  }

  /** What the apply-time filter asks of the user document, and what the reads must have shown. */
  predicate MayBeSeededFrom(u: Doc, cutoff: int) {
    && u.readable && MayBeSeeded(u) && !u.hasRow && !u.paid && !u.pending
    && VerifiedAt(u).Some? && VerifiedAt(u).value >= cutoff
  }

  /** The document's unexplained units put it in the group. */
  predicate ShapedAs(u: Doc, g: Group) {
    u.topup.Some? && GroupOf(u.topup.value - u.ledger, 0) == Grouped(g, 0)
  }

  /** A document that earns its user a place in a group of the work list. */
  predicate Earns(u: Doc, cutoff: int, t: Task) {
    u.id == t.id && MayBeSeededFrom(u, cutoff) && ShapedAs(u, t.group)
  }

  lemma {:induction false} InWorkStep(docs: seq<Doc>, u: Doc, cutoff: int, t: Task)
    ensures t in WorkOf(docs + [u], cutoff)
       <==> t in WorkOf(docs, cutoff) || Earns(u, cutoff, t)
  {
    assert (docs + [u])[..|docs|] == docs;
  }

  /**
   * A user is on the work list, in a group, if and only if a candidate of that id passes every guard and
   * has that group's exact shape; no one else is ever written.
   */
  lemma {:induction false} WorkIsGuarded(docs: seq<Doc>, cutoff: int, t: Task)
    ensures t in WorkOf(docs, cutoff) <==> exists u :: u in docs && Earns(u, cutoff, t)
  {
    if docs != [] {
      var n := |docs| - 1;
      WorkIsGuarded(docs[..n], cutoff, t);
      InWorkStep(docs[..n], docs[n], cutoff, t);
      assert docs == docs[..n] + [docs[n]];
      if t in WorkOf(docs[..n], cutoff) {
        var u :| u in docs[..n] && Earns(u, cutoff, t);
        assert u in docs;
      } else if u :| u in docs && Earns(u, cutoff, t) {
        assert u in docs[..n] || u == docs[n];
      }
    }
  }

  function CountWork(work: seq<Task>, p: Task -> bool): nat {
    if work == [] then 0 else CountWork(work[..|work| - 1], p) + (if p(work[|work| - 1]) then 1 else 0)
  }

  function IsWritten(outcome: nat -> Outcome, g: Group): Task -> bool {
    (w: Task) => w.group == g && outcome(w.id) == Written
  }

  function Ends(outcome: nat -> Outcome, o: Outcome): Task -> bool {
    (w: Task) => outcome(w.id) == o
  }

  /** What the next task adds to each count. */
  lemma CountNext(work: seq<Task>, i: nat, outcome: nat -> Outcome)
    requires i < |work|
    ensures var w, o := work[i], outcome(work[i].id);
      && (forall g :: CountWork(work[..i + 1], IsWritten(outcome, g))
            == CountWork(work[..i], IsWritten(outcome, g)) + (if w.group == g && o == Written then 1 else 0))
      && (forall e :: CountWork(work[..i + 1], Ends(outcome, e))
            == CountWork(work[..i], Ends(outcome, e)) + (if o == e then 1 else 0))
  {
    PrefixStep(work, i);
  }

  lemma {:induction false} WorkIsAandB(docs: seq<Doc>, cutoff: int)
    ensures |WorkOf(docs, cutoff)| == CountOf(docs, cutoff, InA) + CountOf(docs, cutoff, InB)
  {
    if docs != [] {
      WorkIsAandB(docs[..|docs| - 1], cutoff);
    }
  }

  /** Every candidate is read into one group, or fails. */
  lemma {:induction false} EveryoneIsCounted(docs: seq<Doc>, cutoff: int)
    ensures |docs| == Unreadable(docs)
      + CountOf(docs, cutoff, SkippedTest) + CountOf(docs, cutoff, SkippedErased)
          + CountOf(docs, cutoff, SkippedInactive)
      + CountOf(docs, cutoff, Unverified) + CountOf(docs, cutoff, SkippedPreSeed) + CountOf(docs, cutoff, SkippedHasRow)
      + CountOf(docs, cutoff, Manual) + CountOf(docs, cutoff, Ambiguous)
      + CountOf(docs, cutoff, InA) + CountOf(docs, cutoff, InB)
  {
    if docs != [] {
      EveryoneIsCounted(docs[..|docs| - 1], cutoff);
    }
  }

  // ----- the run -------------------------------------------------------------------------------------------

  /** The counters of a run, which its loops update. */
  class SeedRun {
    var candidates: nat
    var classes: map<Class, nat>
    var seededA: nat
    var rowOnlyB: nat
    var alreadyDone: nat
    var failed: nat
    var work: seq<Task>

    constructor ()
      ensures candidates == 0 && classes == NO_CLASSES && work == []
      ensures seededA == 0 && rowOnlyB == 0 && alreadyDone == 0 && failed == 0
    {
      candidates, classes, work := 0, NO_CLASSES, [];
      seededA, rowOnlyB, alreadyDone, failed := 0, 0, 0, 0;
    }

    /** The loop over the cursor. */
    method ClassifyAll(docs: seq<Doc>, cutoff: int)
      requires candidates == 0 && classes == NO_CLASSES && work == [] && failed == 0
      modifies this`candidates, this`classes, this`work, this`failed
      ensures candidates == |docs| && failed == Unreadable(docs) && work == WorkOf(docs, cutoff)
      ensures AllClasses(classes) && forall c :: classes[c] == CountOf(docs, cutoff, c)
    {
      NoneCounted();
      for i := 0 to |docs|
        invariant candidates == i && failed == Unreadable(docs[..i]) && work == WorkOf(docs[..i], cutoff)
        invariant AllClasses(classes) && forall c :: classes[c] == CountOf(docs[..i], cutoff, c)
      {
        PrefixStep(docs, i);
        var u := docs[i];
        candidates := candidates + 1;
        if !u.readable {
          failed := failed + 1;
        } else {
          var c := Classify(u, cutoff);
          classes := classes[c := classes[c] + 1];
          if c == InA {
            work := work + [Task(u.id, A)];
          } else if c == InB {
            work := work + [Task(u.id, B)];
          }
        }
      }
      PrefixAll(docs);
    }

    /** The loop over the work list. */
    method ApplyAll(outcome: nat -> Outcome)
      requires seededA == 0 && rowOnlyB == 0 && alreadyDone == 0
      modifies this`seededA, this`rowOnlyB, this`alreadyDone, this`failed
      ensures seededA == CountWork(work, IsWritten(outcome, A)) && rowOnlyB == CountWork(work, IsWritten(outcome, B))
      ensures alreadyDone == CountWork(work, Ends(outcome, Gone))
      ensures failed == old(failed) + CountWork(work, Ends(outcome, Thrown))
    {
      for i := 0 to |work|
        invariant seededA == CountWork(work[..i], IsWritten(outcome, A))
        invariant rowOnlyB == CountWork(work[..i], IsWritten(outcome, B))
        invariant alreadyDone == CountWork(work[..i], Ends(outcome, Gone))
        invariant failed == old(failed) + CountWork(work[..i], Ends(outcome, Thrown))
      {
        CountNext(work, i, outcome);
        match outcome(work[i].id)
        case Gone => alreadyDone := alreadyDone + 1;
        case Thrown => failed := failed + 1;
        case Written =>
          if work[i].group == A {
            seededA := seededA + 1;
          } else {
            rowOnlyB := rowOnlyB + 1;
          }
      }
      PrefixAll(work);
    }

    /** run: a dry run, and an apply that the earliest-account guard refuses, stop after the groups. */
    method Go(docs: seq<Doc>, cutoff: int, apply: bool, predateCutoff: nat, outcome: nat -> Outcome)
      returns (refused: bool)
      requires candidates == 0 && classes == NO_CLASSES && work == [] && failed == 0
      requires seededA == 0 && rowOnlyB == 0 && alreadyDone == 0
      modifies this
      ensures refused == (apply && predateCutoff > 0)
      ensures candidates == |docs| && AllClasses(classes) && forall c :: classes[c] == CountOf(docs, cutoff, c)
      ensures !apply || refused ==> seededA == rowOnlyB == alreadyDone == 0 && failed == Unreadable(docs)
      ensures apply && !refused ==>
                var work := WorkOf(docs, cutoff);
                && seededA == CountWork(work, IsWritten(outcome, A))
                    && rowOnlyB == CountWork(work, IsWritten(outcome, B))
                && alreadyDone == CountWork(work, Ends(outcome, Gone))
                && failed == Unreadable(docs) + CountWork(work, Ends(outcome, Thrown))
      ensures apply && !refused ==>
                candidates + classes[InA] + classes[InB] == Total(classes) + seededA + rowOnlyB + alreadyDone + failed
    {
      ClassifyAll(docs, cutoff);
      refused := apply && predateCutoff > 0;
      if apply && !refused {
        ApplyAll(outcome);
        CountsAddUp(docs, cutoff, outcome, classes, seededA, rowOnlyB, alreadyDone, failed);
      }
    }
  }

  lemma {:induction false} WorkEnds(work: seq<Task>, outcome: nat -> Outcome)
    ensures CountWork(work, IsWritten(outcome, A)) + CountWork(work, IsWritten(outcome, B))
          + CountWork(work, Ends(outcome, Gone)) + CountWork(work, Ends(outcome, Thrown)) == |work|
  {
    if work != [] {
      var w := work[|work| - 1];
      WorkEnds(work[..|work| - 1], outcome);
      assert IsWritten(outcome, A)(w) <==> w.group == A && outcome(w.id) == Written;
      assert IsWritten(outcome, B)(w) <==> w.group == B && outcome(w.id) == Written;
      assert Ends(outcome, Gone)(w) <==> outcome(w.id) == Gone;
      assert Ends(outcome, Thrown)(w) <==> outcome(w.id) == Thrown;
    }
  }

  /** The counts of an applied run add up. */
  lemma CountsAddUp(docs: seq<Doc>, cutoff: int, outcome: nat -> Outcome, classes: map<Class, nat>,
                    seededA: nat, rowOnlyB: nat, alreadyDone: nat, failed: nat)
    requires AllClasses(classes) && forall c :: classes[c] == CountOf(docs, cutoff, c)
    requires var work := WorkOf(docs, cutoff);
      && seededA == CountWork(work, IsWritten(outcome, A)) && rowOnlyB == CountWork(work, IsWritten(outcome, B))
      && alreadyDone == CountWork(work, Ends(outcome, Gone))
      && failed == Unreadable(docs) + CountWork(work, Ends(outcome, Thrown))
    ensures |docs| + classes[InA] + classes[InB] == Total(classes) + seededA + rowOnlyB + alreadyDone + failed
  {
    EveryoneIsCounted(docs, cutoff);
    WorkIsAandB(docs, cutoff);
    WorkEnds(WorkOf(docs, cutoff), outcome);
  }
}
