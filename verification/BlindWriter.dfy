/**
 * The blind writer of the A/B runs (scripts/ab/blind-writer.ts): the seeded shuffle, the D- and M-ids,
 * and the key that joins them.
 */
module BlindWriter {
  import opened Options
  import opened Prefixes

  // ----- the shuffle -------------------------------------------------------------------------------------

  /** The random generator: its k-th output, out of 2^32, is a fraction below 1. */
  type Generator = nat -> Fraction
  type Fraction = k: nat | k < 0x1_0000_0000

  /** Math.floor(rnd() * (i + 1)) */
  function Pick(k: Fraction, i: nat): (j: nat)
    ensures j <= i
  {
    PickInRange(k, i);
    k * (i + 1) / 0x1_0000_0000
  }

  lemma PickInRange(k: Fraction, i: nat)
    ensures 0 <= k * (i + 1) / 0x1_0000_0000 <= i
  {
    var n := 0x1_0000_0000;
    assert k * (i + 1) <= (n - 1) * (i + 1) < n * (i + 1);
  }

  function Swapped<T>(s: seq<T>, i: nat, j: nat): seq<T>
    requires i < |s| && j < |s|
  {
    s[i := s[j]][j := s[i]]
  }

  /** The rounds of the shuffle from place i down, with `drawn` numbers used. */
  function Shuffled<T>(s: seq<T>, i: nat, rnd: Generator, drawn: nat): (r: seq<T>)
    requires i < |s| || i == 0
    ensures |r| == |s|
    decreases i
  {
    if i == 0 then s else Shuffled(Swapped(s, i, Pick(rnd(drawn), i)), i - 1, rnd, drawn + 1)
  }

  method SwapPlaces<T>(a: array<T>, i: nat, j: nat)
    requires i < a.Length && j < a.Length
    modifies a
    ensures a[..] == Swapped(old(a[..]), i, j)
  {
    a[i], a[j] := a[j], a[i];
  }

  /** seededShuffle, on the copy it makes. */
  method SeededShuffle<T>(items: seq<T>, rnd: Generator) returns (out: seq<T>)
    ensures out == if items == [] then [] else Shuffled(items, |items| - 1, rnd, 0)
  {
    if items == [] {
      return [];
    }
    var a := new T[|items|](k requires 0 <= k < |items| => items[k]);
    assert a[..] == items;
    var i := a.Length - 1;
    var drawn := 0;
    while i > 0
      invariant 0 <= i < a.Length
      invariant Shuffled(a[..], i, rnd, drawn) == Shuffled(items, |items| - 1, rnd, 0)
    {
      SwapPlaces(a, i, Pick(rnd(drawn), i));
      i := i - 1;
      drawn := drawn + 1;
    }
    out := a[..];
  }

  lemma SwapKeeps<T>(s: seq<T>, i: nat, j: nat)
    requires i < |s| && j < |s|
    ensures multiset(Swapped(s, i, j)) == multiset(s)
  {
  }

  /** Whatever the generator gives, the shuffle is a permutation. */
  lemma {:induction false} ShuffleIsPermutation<T>(s: seq<T>, i: nat, rnd: Generator, drawn: nat)
    requires i < |s| || i == 0
    ensures multiset(Shuffled(s, i, rnd, drawn)) == multiset(s)
    decreases i
  {
    if i > 0 {
      var j := Pick(rnd(drawn), i);
      SwapKeeps(s, i, j);
      ShuffleIsPermutation(Swapped(s, i, j), i - 1, rnd, drawn + 1);
    }
  }

  // ----- any order can come out ----------------------------------------------------------------------------

  const OUTPUTS: nat := 0x1_0000_0000

  /** The place picked is that of the part of 0 to i that the output falls in, when it is cut evenly. */
  lemma PickMeaning(k: Fraction, i: nat, j: nat)
    ensures Pick(k, i) == j <==> j * OUTPUTS <= k * (i + 1) < (j + 1) * OUTPUTS
  {
    var x := k * (i + 1);
    if j * OUTPUTS <= x < (j + 1) * OUTPUTS {
      assert x / OUTPUTS == j;
    }
  }

  /** An output that picks place j. */
  lemma OutputFor(j: nat, i: nat) returns (k: Fraction)
    requires j <= i < OUTPUTS
    ensures Pick(k, i) == j
  {
    var x, m := j * OUTPUTS + i, i + 1;
    var q := x / m;
    assert q * m <= x < q * m + m;
    ProductBelow(j, i);
    QuotientBelow(q, m, OUTPUTS);
    k := q;
    PickMeaning(k, i, j);
  }

  lemma ProductBelow(j: nat, i: nat)
    requires j <= i
    ensures j * OUTPUTS + i < (i + 1) * OUTPUTS || i >= OUTPUTS
  {
  }

  lemma QuotientBelow(q: nat, m: nat, n: nat)
    requires m > 0 && q * m < m * n
    ensures q < n
  {
    assert q >= n ==> q * m >= n * m;
  }

  lemma {:induction false} SameDraws<T>(s: seq<T>, i: nat, a: Generator, b: Generator, drawn: nat)
    requires (i < |s| || i == 0) && forall x: nat :: x >= drawn ==> a(x) == b(x)
    ensures Shuffled(s, i, a, drawn) == Shuffled(s, i, b, drawn)
    decreases i
  {
    if i > 0 {
      SameDraws(Swapped(s, i, Pick(a(drawn), i)), i - 1, a, b, drawn + 1);
    }
  }

  lemma SameFront<T>(s: seq<T>, target: seq<T>, i: nat)
    requires |s| == |target| && multiset(s) == multiset(target) && i <= |s| && s[i..] == target[i..]
    ensures multiset(s[..i]) == multiset(target[..i])
  {
    assert s == s[..i] + s[i..] && target == target[..i] + target[i..];
    assert multiset(s) == multiset(s[..i]) + multiset(s[i..]);
    assert multiset(target) == multiset(target[..i]) + multiset(target[i..]);
    assert multiset(s[..i]) == multiset(s) - multiset(s[i..]);
    assert multiset(target[..i]) == multiset(target) - multiset(target[i..]);
  }

  /** The place among the first i + 1 of what is to stand at i. */
  lemma PlaceOf<T>(s: seq<T>, target: seq<T>, i: nat) returns (j: nat)
    requires |s| == |target| && multiset(s) == multiset(target) && i < |s| && s[i + 1..] == target[i + 1..]
    ensures j <= i && s[j] == target[i]
  {
    SameFront(s, target, i + 1);
    assert target[..i + 1][i] in multiset(target[..i + 1]);
    assert target[i] in s[..i + 1];
    j :| 0 <= j <= i && s[..i + 1][j] == target[i];
  }

  lemma PlaceTaken<T>(s: seq<T>, target: seq<T>, i: nat, j: nat)
    requires |s| == |target| && multiset(s) == multiset(target) && j <= i < |s| && s[i + 1..] == target[i + 1..]
    requires s[j] == target[i]
    ensures multiset(Swapped(s, i, j)) == multiset(target) && Swapped(s, i, j)[i..] == target[i..]
  {
    var next := Swapped(s, i, j);
    SwapKeeps(s, i, j);
    assert next[i..] == [next[i]] + s[i + 1..] && target[i..] == [target[i]] + target[i + 1..];
  }

  /** Any order of the items can come out of the shuffle: for each there is a generator that gives it. */
  lemma {:induction false} AnyOrderComesOut<T>(s: seq<T>, target: seq<T>, i: nat, drawn: nat) returns (rnd: Generator)
    requires (i < |s| || i == 0) && |s| <= OUTPUTS
    requires |target| == |s| && multiset(s) == multiset(target) && (i < |s| ==> s[i + 1..] == target[i + 1..])
    ensures Shuffled(s, i, rnd, drawn) == target
    decreases i
  {
    if s == [] {
      rnd := x => 0;
    } else {
      var j := PlaceOf(s, target, i);
      if i == 0 {
        rnd := x => 0;
        assert s == [s[0]] + s[1..] && target == [target[0]] + target[1..];
      } else {
        var next := Swapped(s, i, j);
        PlaceTaken(s, target, i, j);
        var rest := AnyOrderComesOut(next, target, i - 1, drawn + 1);
        var k := OutputFor(j, i);
        rnd := x => if x == drawn then k else rest(x);
        SameDraws(next, i - 1, rnd, rest, drawn + 1);
      }
    }
  }

  // ----- the ids -------------------------------------------------------------------------------------------

  type Digit = d: nat | d < 10

  /** String(n), as digits. */
  function Digits(n: nat): (ds: seq<Digit>)
    ensures |ds| > 0
  {
    if n < 10 then [n] else Digits(n / 10) + [n % 10]
  }

  /** padStart(width, '0') */
  function Padded(ds: seq<Digit>, width: nat): (r: seq<Digit>)
    ensures |r| == if |ds| < width then width else |ds|
    decreases width - |ds|
  {
    if |ds| < width then Padded([0] + ds, width) else ds
  }

  function Value(ds: seq<Digit>): nat {
    if ds == [] then 0 else Value(ds[..|ds| - 1]) * 10 + ds[|ds| - 1]
  }

  function Width(total: nat): nat {
    if |Digits(total)| > 2 then |Digits(total)| else 2
  }

  /** blindId without its letter. */
  function BlindId(index: nat, total: nat): seq<Digit> {
    Padded(Digits(index + 1), Width(total))
  }

  lemma {:induction false} DigitsValue(n: nat)
    ensures Value(Digits(n)) == n
  {
    if n >= 10 {
      DigitsValue(n / 10);
      assert Digits(n)[..|Digits(n)| - 1] == Digits(n / 10);
    } else {
      assert [n as Digit][..0] == [];
    }
  }

  lemma {:induction false} DigitsGrow(m: nat, n: nat)
    requires m <= n
    ensures |Digits(m)| <= |Digits(n)|
  {
    if m >= 10 {
      DigitsGrow(m / 10, n / 10);
    }
  }

  lemma {:induction false} ZeroInFront(ds: seq<Digit>)
    ensures Value([0] + ds) == Value(ds)
  {
    if ds != [] {
      ZeroInFront(ds[..|ds| - 1]);
      assert ([0] + ds)[..|ds|] == [0] + ds[..|ds| - 1];
    } else {
      assert [0 as Digit][..0] == [] && [0 as Digit] + ds == [0];
    }
  }

  lemma {:induction false} PaddedValue(ds: seq<Digit>, width: nat)
    ensures Value(Padded(ds, width)) == Value(ds)
    decreases width - |ds|
  {
    if |ds| < width {
      ZeroInFront(ds);
      PaddedValue([0] + ds, width);
    }
  }

  /** The order in which strings of digits sort. */
  predicate Before(a: seq<Digit>, b: seq<Digit>) {
    if b == [] then false else if a == [] then true
    else a[0] < b[0] || (a[0] == b[0] && Before(a[1..], b[1..]))
  }

  function Power(n: nat): nat {
    if n == 0 then 1 else 10 * Power(n - 1)
  }

  lemma {:induction false} ValueBelow(ds: seq<Digit>)
    ensures Value(ds) < Power(|ds|)
  {
    if ds != [] {
      ValueBelow(ds[..|ds| - 1]);
    }
  }

  lemma TimesTen(d: nat, p: nat)
    ensures (d * p) * 10 == d * (10 * p)
  {
  }

  lemma {:induction false} ValueFromFront(ds: seq<Digit>)
    requires ds != []
    ensures Value(ds) == ds[0] * Power(|ds| - 1) + Value(ds[1..])
  {
    var n := |ds| - 1;
    if n > 0 {
      ValueFromFront(ds[..n]);
      LastOfTail(ds);
      TimesTen(ds[0], Power(n - 1));
    } else {
      assert ds[..0] == [] && ds[1..] == [];
    }
  }

  lemma LastOfTail(ds: seq<Digit>)
    requires |ds| > 1
    ensures Value(ds[1..]) == Value(ds[..|ds| - 1][1..]) * 10 + ds[|ds| - 1]
  {
    assert ds[..|ds| - 1][1..] == ds[1..][..|ds| - 2];
  }

  lemma FrontDecides(x: nat, y: nat, p: nat, u: nat, v: nat)
    requires u < p && v < p
    ensures x * p + u < y * p + v <==> x < y || (x == y && u < v)
  {
    if x < y {
      assert (x + 1) * p <= y * p;
    } else if x > y {
      assert (y + 1) * p <= x * p;
    }
  }

  /** Strings of digits of one length sort as their numbers do. */
  lemma {:induction false} SortsAsNumbers(a: seq<Digit>, b: seq<Digit>)
    requires |a| == |b|
    ensures Before(a, b) <==> Value(a) < Value(b)
  {
    if a != [] {
      ValueFromFront(a);
      ValueFromFront(b);
      ValueBelow(a[1..]);
      ValueBelow(b[1..]);
      SortsAsNumbers(a[1..], b[1..]);
      FrontDecides(a[0], b[0], Power(|a| - 1), Value(a[1..]), Value(b[1..]));
    }
  }

  /** Ids of one run have one length, differ, and sort by their index. */
  lemma IdsSortByIndex(i: nat, j: nat, total: nat)
    requires i < total && j < total
    ensures |BlindId(i, total)| == |BlindId(j, total)| == if total < 10 then 2 else |Digits(total)|
    ensures BlindId(i, total) == BlindId(j, total) <==> i == j
    ensures Before(BlindId(i, total), BlindId(j, total)) <==> i < j
  {
    DigitsGrow(i + 1, total);
    DigitsGrow(j + 1, total);
    IdValue(i, total);
    IdValue(j, total);
    SortsAsNumbers(BlindId(i, total), BlindId(j, total));
  }

  lemma IdValue(i: nat, total: nat)
    ensures Value(BlindId(i, total)) == i + 1
  {
    DigitsValue(i + 1);
    PaddedValue(Digits(i + 1), Width(total));
  }

  // ----- the key ---------------------------------------------------------------------------------------------

  type Id = seq<Digit>

  /** A permutation of the places 0 to |order| - 1. */
  predicate IsOrder(order: seq<nat>) {
    && (forall j :: 0 <= j < |order| ==> order[j] < |order|)
    && (forall i, j :: 0 <= i < j < |order| ==> order[i] != order[j])
    && (forall i: nat :: i < |order| ==> i in order)
  }

  /** mIdOf: the M-id of each place, filled in the order of the second shuffle. */
  method MetricsIds(mOrder: seq<nat>) returns (mIdOf: map<nat, Id>)
    requires IsOrder(mOrder)
    ensures forall i: nat :: i in mIdOf <==> i < |mOrder|
    ensures forall j :: 0 <= j < |mOrder| ==> mIdOf[mOrder[j]] == BlindId(j, |mOrder|)
  {
    mIdOf := map[];
    for j := 0 to |mOrder|
      invariant forall i: nat :: i in mIdOf <==> i in mOrder[..j]
      invariant forall k :: 0 <= k < j ==> mOrder[k] in mIdOf && mIdOf[mOrder[k]] == BlindId(k, |mOrder|)
    {
      PrefixStep(mOrder, j);
      mIdOf := mIdOf[mOrder[j] := BlindId(j, |mOrder|)];
    }
    PrefixAll(mOrder);
    forall i: nat ensures i in mOrder <==> i < |mOrder| {
    }
  }

  /** The id is one of the first n of `total`. */
  ghost predicate IsIdBelow(id: Id, n: nat, total: nat) {
    exists i: nat :: i < n && id == BlindId(i, total)
  }

  /**
   * The key and the metrics rows of drafts in their blind order: an entry for each D-id, with the draft
   * and its M-id; a row for each M-id, what `rowOf` takes from the draft whose entry has that M-id; and
   * nothing else.
   */
  ghost predicate Joins<D, R>(entries: map<Id, (D, Id)>, rows: map<Id, R>, order: seq<D>, rowOf: D -> R) {
    var n := |order|;
    && (forall id :: id in entries <==> IsIdBelow(id, n, n))
    && (forall id :: id in rows <==> IsIdBelow(id, n, n))
    && (forall i: nat :: i < n ==> EntryJoins(entries, rows, order, rowOf, BlindId(i, n), i))
    && (forall a, b :: a in entries && b in entries && a != b ==> entries[a].1 != entries[b].1)
  }

  ghost predicate EntryJoins<D, R>(entries: map<Id, (D, Id)>, rows: map<Id, R>, order: seq<D>, rowOf: D -> R, id: Id,
                                   i: nat) {
    && i < |order| && id in entries && entries[id].0 == order[i]
    && entries[id].1 in rows && rows[entries[id].1] == rowOf(order[i])
  }

  /** 0 to n - 1 */
  function PlacesTo(n: nat): (places: seq<nat>)
    ensures |places| == n && forall i :: 0 <= i < n ==> places[i] == i
  {
    seq(n, i requires 0 <= i < n => i)
  }

  /** The second shuffle, of the places. */
  function MetricsOrder(n: nat, rnd: Generator): (mOrder: seq<nat>)
    ensures |mOrder| == n
  {
    if n == 0 then [] else Shuffled(PlacesTo(n), n - 1, rnd, 0)
  }

  /** The M-ids go to the drafts in the order of the places, a shuffle of its own. */
  ghost predicate IdsFollow<D>(entries: map<Id, (D, Id)>, mOrder: seq<nat>) {
    var n := |mOrder|;
    forall j :: 0 <= j < n ==> BlindId(mOrder[j], n) in entries && entries[BlindId(mOrder[j], n)].1 == BlindId(j, n)
  }

  /** What writeBlind puts in the key and in the metrics file; it refuses to write nothing. */
  method WriteBlind<D, R>(drafts: seq<D>, rnd: Generator, metricsRnd: Generator, rowOf: D -> R)
    returns (written: Option<(map<Id, (D, Id)>, map<Id, R>)>, ghost order: seq<D>)
    ensures written.None? <==> drafts == []
    ensures written.Some? ==> multiset(order) == multiset(drafts) && order == Shuffled(drafts, |drafts| - 1, rnd, 0)
    ensures written.Some? ==> Joins(written.value.0, written.value.1, order, rowOf)
    ensures written.Some? ==>
              IdsFollow(written.value.0, MetricsOrder(|drafts|, metricsRnd))
  {
    if drafts == [] {
      return None, [];
    }
    var shuffled := SeededShuffle(drafts, rnd);
    ShuffleIsPermutation(drafts, |drafts| - 1, rnd, 0);
    var entries, rows := WriteShuffled(shuffled, metricsRnd, rowOf);
    return Some((entries, rows)), shuffled;
  }

  method DrawMetricsOrder(n: nat, rnd: Generator) returns (mOrder: seq<nat>)
    requires n > 0
    ensures mOrder == MetricsOrder(n, rnd) && |mOrder| == n && IsOrder(mOrder)
  {
    var places := PlacesTo(n);
    mOrder := SeededShuffle(places, rnd);
    ShuffleIsOrder(places, rnd);
  }

  method WriteShuffled<D, R>(shuffled: seq<D>, metricsRnd: Generator, rowOf: D -> R)
    returns (entries: map<Id, (D, Id)>, rows: map<Id, R>)
    requires shuffled != []
    ensures Joins(entries, rows, shuffled, rowOf)
    ensures IdsFollow(entries, MetricsOrder(|shuffled|, metricsRnd))
  {
    var mOrder := DrawMetricsOrder(|shuffled|, metricsRnd);
    entries, rows := WriteEntries(shuffled, mOrder, rowOf);
  }

  /** What the loop has written before place i. */
  ghost predicate WrittenTo<D, R>(entries: map<Id, (D, Id)>, rows: map<Id, R>, order: seq<D>, mIdOf: map<nat, Id>,
                                  rowOf: D -> R, i: nat) {
    && (forall id :: id in entries ==> IsIdBelow(id, i, |order|))
    && (forall id :: id in rows ==> exists k: nat :: k < i && k in mIdOf && mIdOf[k] == id)
    && (forall k: nat :: k < i ==> HasEntry(entries, order, mIdOf, k) && HasRow(rows, order, mIdOf, rowOf, k))
  }

  /** The loop of writeBlind over the shuffled drafts. */
  method WriteEntries<D, R>(order: seq<D>, mOrder: seq<nat>, rowOf: D -> R)
    returns (entries: map<Id, (D, Id)>, rows: map<Id, R>)
    requires IsOrder(mOrder) && |mOrder| == |order|
    ensures Joins(entries, rows, order, rowOf) && IdsFollow(entries, mOrder)
  {
    var n := |order|;
    var mIdOf := MetricsIds(mOrder);
    MetricsIdsDiffer(mOrder, mIdOf);
    IdsDiffer(n);
    entries, rows := map[], map[];
    for i := 0 to n
      invariant WrittenTo(entries, rows, order, mIdOf, rowOf, i)
    {
      EntryWritten(entries, rows, order, mIdOf, rowOf, i);
      entries := entries[BlindId(i, n) := (order[i], mIdOf[i])];
      rows := rows[mIdOf[i] := rowOf(order[i])];
    }
    AllWritten(entries, rows, order, mOrder, mIdOf, rowOf);
    forall j | 0 <= j < n
      ensures BlindId(mOrder[j], n) in entries && entries[BlindId(mOrder[j], n)].1 == BlindId(j, n)
    {
      assert HasEntry(entries, order, mIdOf, mOrder[j]);
    }
  }

  lemma EntryWritten<D, R>(entries: map<Id, (D, Id)>, rows: map<Id, R>, order: seq<D>, mIdOf: map<nat, Id>,
                           rowOf: D -> R, i: nat)
    requires WrittenTo(entries, rows, order, mIdOf, rowOf, i) && i < |order| && i in mIdOf
    requires forall k: nat :: k < i ==> BlindId(k, |order|) != BlindId(i, |order|)
    requires forall k: nat :: k < i && k in mIdOf ==> mIdOf[k] != mIdOf[i]
    ensures WrittenTo(entries[BlindId(i, |order|) := (order[i], mIdOf[i])], rows[mIdOf[i] := rowOf(order[i])],
                      order, mIdOf, rowOf, i + 1)
  {
    var n := |order|;
    var entries1, rows1 := entries[BlindId(i, n) := (order[i], mIdOf[i])], rows[mIdOf[i] := rowOf(order[i])];
    forall id | id in entries1 ensures IsIdBelow(id, i + 1, n) {
      if id != BlindId(i, n) {
        var k: nat :| k < i && id == BlindId(k, n);
      }
    }
    forall k: nat | k < i + 1 ensures HasEntry(entries1, order, mIdOf, k) && HasRow(rows1, order, mIdOf, rowOf, k) {
      if k < i {
        assert HasEntry(entries, order, mIdOf, k) && HasRow(rows, order, mIdOf, rowOf, k);
      }
    }
  }

  /** The M-ids are those of the places, each once. */
  lemma AllWritten<D, R>(entries: map<Id, (D, Id)>, rows: map<Id, R>, order: seq<D>, mOrder: seq<nat>,
                         mIdOf: map<nat, Id>, rowOf: D -> R)
    requires IsOrder(mOrder) && |mOrder| == |order| && WrittenTo(entries, rows, order, mIdOf, rowOf, |order|)
    requires forall i: nat :: i in mIdOf <==> i < |mOrder|
    requires forall j :: 0 <= j < |mOrder| ==> mIdOf[mOrder[j]] == BlindId(j, |mOrder|)
    requires forall i: nat, k: nat :: i < k < |mOrder| ==> mIdOf[i] != mIdOf[k]
    ensures Joins(entries, rows, order, rowOf)
  {
    var n := |order|;
    forall i: nat | i < n ensures EntryJoins(entries, rows, order, rowOf, BlindId(i, n), i) {
      assert HasEntry(entries, order, mIdOf, i) && HasRow(rows, order, mIdOf, rowOf, i);
    }
    forall id | IsIdBelow(id, n, n) ensures id in entries && id in rows {
      var i: nat :| i < n && id == BlindId(i, n);
      assert HasEntry(entries, order, mIdOf, i) && HasRow(rows, order, mIdOf, rowOf, mOrder[i]);
    }
    forall id | id in rows ensures IsIdBelow(id, n, n) {
      var k: nat :| k < n && k in mIdOf && mIdOf[k] == id;
      assert k in mOrder;
      var j :| 0 <= j < |mOrder| && mOrder[j] == k;
      assert id == BlindId(j, n);
    }
    forall a, b | a in entries && b in entries && a != b ensures entries[a].1 != entries[b].1 {
      var i: nat :| i < n && a == BlindId(i, n);
      var k: nat :| k < n && b == BlindId(k, n);
      assert HasEntry(entries, order, mIdOf, i) && HasEntry(entries, order, mIdOf, k);
    }
  }

  lemma IdsDiffer(n: nat)
    ensures forall i: nat, k: nat :: i < k < n ==> BlindId(i, n) != BlindId(k, n)
  {
    forall i: nat, k: nat | i < k < n ensures BlindId(i, n) != BlindId(k, n) {
      IdsSortByIndex(i, k, n);
    }
  }

  ghost predicate HasRow<D, R>(rows: map<Id, R>, order: seq<D>, mIdOf: map<nat, Id>, rowOf: D -> R, k: nat) {
    k < |order| && k in mIdOf && mIdOf[k] in rows && rows[mIdOf[k]] == rowOf(order[k])
  }

  ghost predicate HasEntry<D>(entries: map<Id, (D, Id)>, order: seq<D>, mIdOf: map<nat, Id>, k: nat) {
    k < |order| && k in mIdOf && BlindId(k, |order|) in entries && entries[BlindId(k, |order|)] == (order[k], mIdOf[k])
  }

  lemma MetricsIdsDiffer(mOrder: seq<nat>, mIdOf: map<nat, Id>)
    requires IsOrder(mOrder) && forall i: nat :: i in mIdOf <==> i < |mOrder|
    requires forall j :: 0 <= j < |mOrder| ==> mIdOf[mOrder[j]] == BlindId(j, |mOrder|)
    ensures forall i: nat, k: nat :: i < k < |mOrder| ==> mIdOf[i] != mIdOf[k]
  {
    forall i: nat, k: nat | i < k < |mOrder| ensures mIdOf[i] != mIdOf[k] {
      assert i in mOrder && k in mOrder;
      var a :| 0 <= a < |mOrder| && mOrder[a] == i;
      var b :| 0 <= b < |mOrder| && mOrder[b] == k;
      IdsSortByIndex(a, b, |mOrder|);
    }
  }

  /** The second shuffle, of the places themselves, is such an order. */
  lemma ShuffleIsOrder(places: seq<nat>, rnd: Generator)
    requires places != [] && forall i :: 0 <= i < |places| ==> places[i] == i
    ensures IsOrder(Shuffled(places, |places| - 1, rnd, 0))
  {
    ShuffleIsPermutation(places, |places| - 1, rnd, 0);
    PlacesOnce(places, Shuffled(places, |places| - 1, rnd, 0));
  }

  lemma PlacesOnce(places: seq<nat>, order: seq<nat>)
    requires forall i :: 0 <= i < |places| ==> places[i] == i
    requires multiset(order) == multiset(places) && |order| == |places|
    ensures IsOrder(order)
  {
    forall i: nat ensures multiset(places)[i] == if i < |places| then 1 else 0 {
      CountPlace(places, i);
    }
    forall j | 0 <= j < |order| ensures order[j] < |order| {
      assert order[j] in multiset(order);
    }
    forall i: nat | i < |order| ensures i in order {
      assert i in multiset(order);
    }
    forall i, j | 0 <= i < j < |order| ensures order[i] != order[j] {
      assert order == order[..j] + order[j..];
      assert multiset(order) == multiset(order[..j]) + multiset(order[j..]);
      assert order[i] in order[..j] && order[j] in order[j..];
      assert order[i] in multiset(order[..j]) && order[j] in multiset(order[j..]);
      assert multiset(places)[order[i]] == 1;
    }
  }

  lemma {:induction false} CountPlace(places: seq<nat>, i: nat)
    requires forall k :: 0 <= k < |places| ==> places[k] == k
    ensures multiset(places)[i] == if i < |places| then 1 else 0
  {
    if places != [] {
      var n := |places| - 1;
      CountPlace(places[..n], i);
      assert places == places[..n] + [n];
    }
  }
}
