/** Ranges of a text: their order, and sorting them by start. */
module Spans {
  import opened Prefixes
  import opened Units

  predicate Overlaps(a: Span, b: Span) {
    a.start < b.end && b.start < a.end
  }

  predicate Inside(a: Span, b: Span) {
    b.start <= a.start && a.end <= b.end
  }

  /** Non-empty spans of the text, one after the other. */
  predicate InOrder(ms: seq<Span>, from: nat, to: nat) {
    && (forall i :: 0 <= i < |ms| ==> from <= ms[i].start < ms[i].end <= to)
    && (forall i, j :: 0 <= i < j < |ms| ==> ms[i].end <= ms[j].start)
  }

  lemma InOrderCons(s: Span, ms: seq<Span>, from: nat, to: nat)
    requires from <= s.start < s.end <= to && InOrder(ms, s.end, to)
    ensures InOrder([s] + ms, from, to)
  {
  }

  predicate OverlapsAny(s: Span, ms: seq<Span>) {
    exists m :: m in ms && Overlaps(s, m)
  }

  /** No two of the spans overlap. */
  ghost predicate Apart(ms: seq<Span>) {
    forall i, j :: 0 <= i < j < |ms| ==> !Overlaps(ms[i], ms[j])
  }

  ghost predicate NonEmpty(ms: seq<Span>, to: nat) {
    forall i :: 0 <= i < |ms| ==> ms[i].start < ms[i].end <= to
  }

  /** One step of a sort by start. */
  function InsertSpan(ms: seq<Span>, s: Span): seq<Span> {
    if ms == [] || ms[|ms| - 1].start <= s.start then ms + [s]
    else InsertSpan(ms[..|ms| - 1], s) + [ms[|ms| - 1]]
  }

  lemma {:induction false} InsertSpanMembers(ms: seq<Span>, s: Span)
    ensures multiset(InsertSpan(ms, s)) == multiset(ms) + multiset{s}
  {
    if ms != [] && ms[|ms| - 1].start > s.start {
      var n := |ms| - 1;
      InsertSpanMembers(ms[..n], s);
      assert ms == ms[..n] + [ms[n]];
    }
  }

  lemma InOrderSnoc(ms: seq<Span>, s: Span, to: nat)
    requires InOrder(ms, 0, to) && s.start < s.end <= to
    requires forall x :: x in ms ==> x.end <= s.start
    ensures InOrder(ms + [s], 0, to)
  {
    forall i | 0 <= i < |ms| ensures ms[i].end <= s.start {
      assert ms[i] in ms;
    }
  }

  lemma InOrderInit(ms: seq<Span>, n: nat, to: nat)
    requires InOrder(ms, 0, to) && n < |ms|
    ensures InOrder(ms[..n], 0, to) && forall x :: x in ms[..n] ==> x.end <= ms[n].start
  {
  }

  lemma {:induction false} InsertSpanInOrder(ms: seq<Span>, s: Span, to: nat)
    requires InOrder(ms, 0, to) && s.start < s.end <= to
    requires forall m :: m in ms ==> !Overlaps(s, m)
    ensures InOrder(InsertSpan(ms, s), 0, to)
  {
    if ms == [] || ms[|ms| - 1].start <= s.start {
      forall x | x in ms ensures x.end <= s.start {
        BeforeLast(ms, x, to);
        assert !Overlaps(s, x);
      }
      InOrderSnoc(ms, s, to);
    } else {
      var n := |ms| - 1;
      assert ms[n] in ms && !Overlaps(s, ms[n]);
      InOrderInit(ms, n, to);
      InsertSpanInOrder(ms[..n], s, to);
      InsertSpanMembers(ms[..n], s);
      forall x | x in InsertSpan(ms[..n], s) ensures x.end <= ms[n].start {
        assert x in multiset(ms[..n]) + multiset{s};
      }
      InOrderSnoc(InsertSpan(ms[..n], s), ms[n], to);
    }
  }

  lemma BeforeLast(ms: seq<Span>, x: Span, to: nat)
    requires InOrder(ms, 0, to) && x in ms
    ensures x.start <= ms[|ms| - 1].start && x.start < x.end
  {
    var k :| 0 <= k < |ms| && ms[k] == x;
    assert k < |ms| - 1 ==> ms[k].end <= ms[|ms| - 1].start;
  }

  lemma ApartAppend(ms: seq<Span>, s: Span)
    requires Apart(ms) && !OverlapsAny(s, ms)
    ensures Apart(ms + [s])
  {
    forall i | 0 <= i < |ms| ensures !Overlaps(ms[i], s) {
      assert ms[i] in ms;
    }
  }

  /** A stable sort by start. */
  function Sorted(ms: seq<Span>): (r: seq<Span>)
    ensures |ms| == 0 ==> r == []
  {
    if ms == [] then [] else InsertSpan(Sorted(ms[..|ms| - 1]), ms[|ms| - 1])
  }

  lemma {:induction false} SortedMembers(ms: seq<Span>)
    ensures multiset(Sorted(ms)) == multiset(ms)
    ensures forall x :: x in Sorted(ms) <==> x in ms
  {
    if ms != [] {
      var n := |ms| - 1;
      SortedMembers(ms[..n]);
      InsertSpanMembers(Sorted(ms[..n]), ms[n]);
      assert ms == ms[..n] + [ms[n]];
    }
    forall x ensures x in Sorted(ms) <==> x in ms {
      assert x in Sorted(ms) <==> x in multiset(Sorted(ms));
      assert x in ms <==> x in multiset(ms);
    }
  }

  predicate ByStart(ms: seq<Span>) {
    forall i, j :: 0 <= i < j < |ms| ==> ms[i].start <= ms[j].start
  }

  /** Ranges that do not overlap are put in order, one after the other. */
  lemma {:induction false} SortedInOrder(ms: seq<Span>, to: nat)
    requires Apart(ms) && NonEmpty(ms, to)
    ensures InOrder(Sorted(ms), 0, to)
  {
    if ms != [] {
      var n := |ms| - 1;
      SortedInOrder(ms[..n], to);
      SortedMembers(ms[..n]);
      forall m | m in Sorted(ms[..n]) ensures !Overlaps(ms[n], m) {
        var k: nat :| k < n && ms[..n][k] == m;
        assert !Overlaps(ms[k], ms[n]);
      }
      InsertSpanInOrder(Sorted(ms[..n]), ms[n], to);
    }
  }

  /** Ranges in order stay as they are. */
  lemma {:induction false} SortedAlready(ms: seq<Span>)
    requires ByStart(ms)
    ensures Sorted(ms) == ms
  {
    if ms != [] {
      var n := |ms| - 1;
      SortedAlready(ms[..n]);
      assert ms == ms[..n] + [ms[n]];
    }
  }

  /** sort((a, b) => a.start - b.start) */
  method SortSpans(ms: seq<Span>) returns (sorted: seq<Span>)
    ensures sorted == Sorted(ms)
  {
    sorted := [];
    for i := 0 to |ms|
      invariant sorted == Sorted(ms[..i])
    {
      PrefixStep(ms, i);
      sorted := InsertSpan(sorted, ms[i]);
    }
    PrefixAll(ms);
  }
}
