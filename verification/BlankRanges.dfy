/**
 * From the blanks of a text back to ranges of its content (the loops of markBlanks in
 * packages/shared/src/blanks.ts).
 */
module BlankRanges {
  import opened Markup
  import opened Options
  import opened Prefixes
  import opened Spans
  import opened Units

  /** What a finder gives: any range, inside the text or not. */
  datatype Found = Found(start: int, end: int)

  function First(b: Found): nat {
    if b.start < 0 then 0 else b.start
  }

  function Last(b: Found, n: nat): (k: nat)
    ensures k <= n
  {
    if b.end < 0 then 0 else if b.end < n then b.end else n
  }

  predicate IsSource(c: Cell, p: nat) {
    c.written && c.token.start <= p < c.token.end
  }

  /** Place p of the content is a source of one of the cells from lo to hi. */
  predicate Sourced(cells: seq<Cell>, lo: nat, hi: nat, p: nat)
    requires hi <= |cells|
  {
    exists k :: lo <= k < hi && IsSource(cells[k], p)
  }

  predicate Holds(ranges: seq<Span>, p: nat) {
    exists r :: r in ranges && InRange(r, p)
  }

  predicate InRange(r: Span, p: nat) {
    r.start <= p < r.end
  }

  /** Written tokens only, from i to j. */
  predicate TextRun(row: seq<Token>, i: nat, j: nat)
    requires IsRow(row)
    decreases |row| - i
  {
    i == j || (i < j <= |row| && row[i].kind == Written && TextRun(row, i + row[i].len, j))
  }

  lemma {:induction false} TextRunReaches(row: seq<Token>, i: nat, j: nat)
    requires IsRow(row) && TextRun(row, i, j)
    ensures Reaches(row, i, j) && i <= j
    decreases |row| - i
  {
    if i < j {
      TextRunReaches(row, i + row[i].len, j);
    }
  }

  lemma {:induction false} TextRunStep(row: seq<Token>, i: nat, j: nat)
    requires IsRow(row) && TextRun(row, i, j) && j < |row| && row[j].kind == Written
    ensures TextRun(row, i, j + row[j].len)
    decreases |row| - i
  {
    if i < j {
      TextRunReaches(row, i + row[i].len, j);
      TextRunStep(row, i + row[i].len, j);
    }
  }

  /** A range of the content that is whole written tokens: no tag, no part of an entity. */
  predicate IsTextRange(row: seq<Token>, r: Span)
    requires IsRow(row)
  {
    r.start < r.end <= |row| && Reaches(row, 0, r.start) && TextRun(row, r.start, r.end)
  }

  predicate AllText(row: seq<Token>, ranges: seq<Span>)
    requires IsRow(row)
  {
    forall r :: r in ranges ==> IsTextRange(row, r)
  }

  /** Ranges one after the other, with something between them. */
  predicate Separate(ranges: seq<Span>) {
    forall i, j :: 0 <= i < j < |ranges| ==> ranges[i].end < ranges[j].start
  }

  predicate AllBefore(ranges: seq<Span>, p: nat) {
    forall r :: r in ranges ==> r.end < p
  }

  lemma SeparateAppend(ranges: seq<Span>, r: Span)
    requires Separate(ranges) && AllBefore(ranges, r.start)
    ensures Separate(ranges + [r])
  {
    forall i | 0 <= i < |ranges| ensures ranges[i].end < r.start {
      assert ranges[i] in ranges;
    }
  }

  lemma SourcedStep(cells: seq<Cell>, lo: nat, k: nat, p: nat)
    requires lo <= k < |cells|
    ensures Sourced(cells, lo, k + 1, p) <==> Sourced(cells, lo, k, p) || IsSource(cells[k], p)
  {
    if IsSource(cells[k], p) {
      assert lo <= k < k + 1 && IsSource(cells[k], p);
    }
  }

  lemma HoldsAppend(ranges: seq<Span>, more: seq<Span>, p: nat)
    ensures Holds(ranges + more, p) <==> Holds(ranges, p) || Holds(more, p)
  {
    if Holds(ranges, p) {
      var r :| r in ranges && InRange(r, p);
      assert r in ranges + more;
    }
    if Holds(more, p) {
      var r :| r in more && InRange(r, p);
      assert r in ranges + more;
    }
  }

  lemma HoldsOne(r: Span, p: nat)
    ensures Holds([r], p) <==> InRange(r, p)
  {
    assert r in [r];
  }

  /** The cells of a row. */
  ghost predicate AreCells(row: seq<Token>, cells: seq<Cell>) {
    IsRow(row) && Ordered(cells) && forall k :: 0 <= k < |cells| ==> Fits(row, 0, cells[k])
  }

  lemma CellsAreCells(row: seq<Token>)
    requires IsRow(row)
    ensures AreCells(row, Cells(row, 0))
  {
    CellsOrdered(row, 0);
    forall k | 0 <= k < |Cells(row, 0)| ensures Fits(row, 0, Cells(row, 0)[k]) {
      CellsFit(row, 0, Cells(row, 0)[k]);
    }
  }

  function Opened(open: Option<Span>): seq<Span> {
    if open.Some? then [open.value] else []
  }

  /**
   * The state of the loop over a blank's cells: `ranges` are closed and `open` may go on. Together
   * they are separate ranges of whole text tokens that hold the sources of the cells so far, no more
   * and no less.
   */
  ghost predicate Running(row: seq<Token>, cells: seq<Cell>, lo: nat, k: nat, ranges: seq<Span>, open: Option<Span>) {
    && AreCells(row, cells) && lo <= k <= |cells|
    && OpenAt(cells, lo, k, ranges, open)
    && AllText(row, ranges + Opened(open))
    && Separate(ranges + Opened(open))
    && SameSources(cells, lo, k, ranges + Opened(open))
  }

  ghost predicate SameSources(cells: seq<Cell>, lo: nat, k: nat, ranges: seq<Span>)
    requires k <= |cells|
  {
    forall p: nat :: Holds(ranges, p) <==> Sourced(cells, lo, k, p)
  }

  predicate OpenAt(cells: seq<Cell>, lo: nat, k: nat, ranges: seq<Span>, open: Option<Span>)
    requires lo <= k <= |cells|
  {
    match open
    case None => k < |cells| ==> AllBefore(ranges, cells[k].token.start)
    case Some(r) =>
      && k > lo && cells[k - 1].written
      && r.start <= cells[k - 1].token.start && r.end == cells[k - 1].token.end
  }

  /** A cell that goes on with the open run: it starts where the run ends, or is in its last token. */
  lemma GoOn(row: seq<Token>, cells: seq<Cell>, k: nat, r: Span)
    requires AreCells(row, cells) && 0 < k < |cells| && cells[k - 1].written && r.end == cells[k - 1].token.end
    requires r.start <= cells[k - 1].token.start && IsTextRange(row, r)
    requires cells[k].written && cells[k].token.start <= r.end
    ensures r.start <= cells[k].token.start <= r.end <= cells[k].token.end
    ensures IsTextRange(row, Span(r.start, cells[k].token.end))
  {
    assert Fits(row, 0, cells[k]);
    assert Follows(cells[k - 1], cells[k], true);
    if cells[k - 1].token.end <= cells[k].token.start {
      TextRunStep(row, r.start, r.end);
    }
  }

  lemma StartRange(row: seq<Token>, cells: seq<Cell>, k: nat)
    requires AreCells(row, cells) && k < |cells| && cells[k].written
    ensures IsTextRange(row, cells[k].token)
  {
    assert Fits(row, 0, cells[k]);
  }

  lemma SourcesGrow(cells: seq<Cell>, lo: nat, k: nat, before: seq<Span>, after: seq<Span>)
    requires lo <= k < |cells| && SameSources(cells, lo, k, before)
    requires forall p :: Holds(after, p) <==> Holds(before, p) || IsSource(cells[k], p)
    ensures SameSources(cells, lo, k + 1, after)
  {
    forall p: nat ensures Holds(after, p) <==> Sourced(cells, lo, k + 1, p) {
      SourcedStep(cells, lo, k, p);
    }
  }

  lemma ReplaceLast(ranges: seq<Span>, r: Span, to: nat)
    requires Separate(ranges + [r])
    ensures Separate(ranges + [Span(r.start, to)])
  {
    var s, s2 := ranges + [r], ranges + [Span(r.start, to)];
    forall i, j | 0 <= i < j < |s2| ensures s2[i].end < s2[j].start {
      assert s[i].end < s[j].start;
    }
  }

  /** The cell goes on with the open run. */
  lemma StepGoOn(row: seq<Token>, cells: seq<Cell>, lo: nat, k: nat, ranges: seq<Span>, r: Span)
    requires Running(row, cells, lo, k, ranges, Some(r)) && k < |cells|
    requires cells[k].written && cells[k].token.start <= r.end
    ensures r.end <= cells[k].token.end
    ensures Running(row, cells, lo, k + 1, ranges, Some(Span(r.start, cells[k].token.end)))
  {
    var r2 := Span(r.start, cells[k].token.end);
    assert r in ranges + [r];
    GoOn(row, cells, k, r);
    ReplaceLast(ranges, r, r2.end);
    forall p ensures Holds(ranges + [r2], p) <==> Holds(ranges + [r], p) || IsSource(cells[k], p) {
      HoldsAppend(ranges, [r], p);
      HoldsAppend(ranges, [r2], p);
      HoldsOne(r, p);
      HoldsOne(r2, p);
    }
    SourcesGrow(cells, lo, k, ranges + [r], ranges + [r2]);
    forall x | x in ranges + [r2] ensures IsTextRange(row, x) {
      assert x != r2 ==> x in ranges + [r];
    }
  }

  /** The open run, if any, is closed before cell k. */
  lemma CloseRun(row: seq<Token>, cells: seq<Cell>, lo: nat, k: nat, ranges: seq<Span>, open: Option<Span>)
    requires Running(row, cells, lo, k, ranges, open) && k < |cells|
    requires cells[k].written && open.Some? ==> open.value.end < cells[k].token.start
    ensures AllBefore(ranges + Opened(open), if cells[k].written then cells[k].token.start else cells[k].token.end)
  {
    if open.Some? {
      var all := ranges + Opened(open);
      forall r | r in all ensures r.end <= open.value.end {
        var i :| 0 <= i < |all| && all[i] == r;
        assert i < |ranges| ==> all[i].end < all[|ranges|].start;
        assert IsTextRange(row, all[|ranges|]) by {
          assert all[|ranges|] in all;
        }
      }
      assert Follows(cells[k - 1], cells[k], true);
    }
  }

  /** A written cell starts a run. */
  lemma StepStart(row: seq<Token>, cells: seq<Cell>, lo: nat, k: nat, ranges: seq<Span>, open: Option<Span>)
    requires Running(row, cells, lo, k, ranges, open) && k < |cells|
    requires cells[k].written && (open.Some? ==> open.value.end < cells[k].token.start)
    ensures Running(row, cells, lo, k + 1, ranges + Opened(open), Some(cells[k].token))
  {
    var all := ranges + Opened(open);
    var r := cells[k].token;
    CloseRun(row, cells, lo, k, ranges, open);
    StartRange(row, cells, k);
    SeparateAppend(all, r);
    forall p ensures Holds(all + [r], p) <==> Holds(all, p) || IsSource(cells[k], p) {
      HoldsAppend(all, [r], p);
      HoldsOne(r, p);
    }
    SourcesGrow(cells, lo, k, all, all + [r]);
  }

  /** A line break closes the run. */
  lemma StepBreak(row: seq<Token>, cells: seq<Cell>, lo: nat, k: nat, ranges: seq<Span>, open: Option<Span>)
    requires Running(row, cells, lo, k, ranges, open) && k < |cells| && !cells[k].written
    ensures Running(row, cells, lo, k + 1, ranges + Opened(open), None)
  {
    var all := ranges + Opened(open);
    CloseRun(row, cells, lo, k, ranges, open);
    assert all + [] == all;
    SourcesGrow(cells, lo, k, all, all);
    if k + 1 < |cells| {
      assert Follows(cells[k], cells[k + 1], true);
    }
  }

  predicate GoesOn(open: Option<Span>, s: Option<Span>) {
    open.Some? && s.Some? && s.value.start <= open.value.end
  }

  function NextOpen(open: Option<Span>, s: Option<Span>): Option<Span> {
    if GoesOn(open, s)
    then Some(Span(open.value.start, if s.value.end > open.value.end then s.value.end else open.value.end))
    else s
  }

  lemma Step(row: seq<Token>, cells: seq<Cell>, lo: nat, k: nat, ranges: seq<Span>, open: Option<Span>)
    requires Running(row, cells, lo, k, ranges, open) && k < |cells|
    ensures GoesOn(open, SourceOf(cells[k])) ==>
              Running(row, cells, lo, k + 1, ranges, NextOpen(open, SourceOf(cells[k])))
    ensures !GoesOn(open, SourceOf(cells[k])) ==>
              Running(row, cells, lo, k + 1, ranges + Opened(open), NextOpen(open, SourceOf(cells[k])))
  {
    if GoesOn(open, SourceOf(cells[k])) {
      StepGoOn(row, cells, lo, k, ranges, open.value);
    } else if cells[k].written {
      StepStart(row, cells, lo, k, ranges, open);
    } else {
      StepBreak(row, cells, lo, k, ranges, open);
    }
  }

  lemma NothingRunning(row: seq<Token>, cells: seq<Cell>, lo: nat)
    requires AreCells(row, cells) && lo <= |cells|
    ensures Running(row, cells, lo, lo, [], None)
  {
  }

  /** The inner loop of markBlanks: the ranges of one blank. */
  method RangesOf(ghost row: seq<Token>, ghost cells: seq<Cell>, sources: seq<Option<Span>>, b: Found)
    returns (ranges: seq<Span>)
    requires AreCells(row, cells) && sources == SourcesOf(cells)
    ensures AllText(row, ranges) && Separate(ranges)
    ensures SameSources(cells, First(b), Last(b, |cells|), ranges)
  {
    ranges := [];
    var open: Option<Span> := None;
    var k, hi := First(b), Last(b, |sources|);
    if k < hi {
      NothingRunning(row, cells, First(b));
      while k < hi
        invariant First(b) <= k <= hi
        invariant Running(row, cells, First(b), k, ranges, open)
      {
        Step(row, cells, First(b), k, ranges, open);
        if !GoesOn(open, sources[k]) {
          ranges := ranges + Opened(open);
        }
        open := NextOpen(open, sources[k]);
        k := k + 1;
      }
      ranges := ranges + Opened(open);
    }
  }

  // ----- all the blanks --------------------------------------------------------------------------------

  /** Place p of the content is a source of a blank's text. */
  predicate BlankSource(cells: seq<Cell>, blanks: seq<Found>, p: nat) {
    exists b :: b in blanks && Sourced(cells, First(b), Last(b, |cells|), p)
  }

  /** What findBlanks promises: ranges of the text in order, none of which starts inside a character. */
  predicate WellFound(cells: seq<Cell>, blanks: seq<Found>) {
    && (forall i :: 0 <= i < |blanks| ==> WellPlaced(cells, blanks[i]))
    && (forall i, j :: 0 <= i < j < |blanks| ==> blanks[i].end <= blanks[j].start)
  }

  predicate WellPlaced(cells: seq<Cell>, b: Found) {
    0 <= b.start < b.end <= |cells| && !IsLowSurrogate(cells[b.start].unit)
  }

  lemma SourcesInOrder(cells: seq<Cell>, k: nat, l: nat, p: nat, q: nat)
    requires Ordered(cells) && k < l < |cells| && IsSource(cells[k], p) && IsSource(cells[l], q)
    requires l > k + 1 || !IsLowSurrogate(cells[l].unit)
    ensures p < q
  {
    assert Follows(cells[k], cells[l], l == k + 1);
  }

  lemma LaterBlank(cells: seq<Cell>, b: Found, c: Found, p: nat, q: nat)
    requires Ordered(cells) && WellPlaced(cells, b) && WellPlaced(cells, c) && b.end <= c.start
    requires Sourced(cells, First(b), Last(b, |cells|), p) && Sourced(cells, First(c), Last(c, |cells|), q)
    ensures p < q
  {
    var k: nat :| First(b) <= k < Last(b, |cells|) && IsSource(cells[k], p);
    var l: nat :| First(c) <= l < Last(c, |cells|) && IsSource(cells[l], q);
    SourcesInOrder(cells, k, l, p, q);
  }

  /** The sources of the next blank come after those of the blanks before it. */
  lemma NextBlankAfter(cells: seq<Cell>, blanks: seq<Found>, i: nat, p: nat, q: nat)
    requires Ordered(cells) && WellFound(cells, blanks) && i < |blanks|
    requires BlankSource(cells, blanks[..i], p)
    requires Sourced(cells, First(blanks[i]), Last(blanks[i], |cells|), q)
    ensures p < q
  {
    var b :| b in blanks[..i] && Sourced(cells, First(b), Last(b, |cells|), p);
    var h: nat :| h < i && blanks[h] == b;
    assert blanks[h].end <= blanks[i].start;
    LaterBlank(cells, b, blanks[i], p, q);
  }

  lemma RangesInOrder(row: seq<Token>, cells: seq<Cell>, blanks: seq<Found>, i: nat, ranges: seq<Span>, more: seq<Span>)
    requires AreCells(row, cells) && WellFound(cells, blanks) && i < |blanks|
    requires InOrder(ranges, 0, |row|) && AllText(row, ranges)
    requires forall p: nat :: Holds(ranges, p) <==> BlankSource(cells, blanks[..i], p)
    requires AllText(row, more) && Separate(more)
    requires SameSources(cells, First(blanks[i]), Last(blanks[i], |cells|), more)
    ensures InOrder(ranges + more, 0, |row|)
  {
    forall r, next | r in ranges && next in more ensures r.end <= next.start {
      assert IsTextRange(row, r) && IsTextRange(row, next);
      assert InRange(r, r.end - 1) && Holds(ranges, r.end - 1);
      assert InRange(next, next.start) && Holds(more, next.start);
      NextBlankAfter(cells, blanks, i, r.end - 1, next.start);
    }
    TextInOrder(row, more);
    InOrderConcat(ranges, more, |row|);
  }

  lemma TextInOrder(row: seq<Token>, ranges: seq<Span>)
    requires IsRow(row) && AllText(row, ranges) && Separate(ranges)
    ensures InOrder(ranges, 0, |row|)
  {
    forall i | 0 <= i < |ranges| ensures ranges[i].start < ranges[i].end <= |row| {
      assert ranges[i] in ranges;
      assert IsTextRange(row, ranges[i]);
    }
  }

  lemma InOrderConcat(a: seq<Span>, b: seq<Span>, to: nat)
    requires InOrder(a, 0, to) && InOrder(b, 0, to)
    requires forall x, y :: x in a && y in b ==> x.end <= y.start
    ensures InOrder(a + b, 0, to)
  {
    var ab := a + b;
    forall i, j | 0 <= i < j < |ab| ensures ab[i].end <= ab[j].start {
      if i < |a| <= j {
        assert a[i] in a && b[j - |a|] in b;
      }
    }
  }

  lemma BlankSourceStep(cells: seq<Cell>, blanks: seq<Found>, i: nat, p: nat)
    requires i < |blanks|
    ensures BlankSource(cells, blanks[..i + 1], p)
       <==> BlankSource(cells, blanks[..i], p) || Sourced(cells, First(blanks[i]), Last(blanks[i], |cells|), p)
  {
    PrefixStep(blanks, i);
    assert blanks[i] in blanks[..i + 1];
  }

  /**
   * The outer loop of markBlanks. The ranges hold the sources of the blanks, no more and no less, and
   * are in order when the blanks are.
   */
  method RangesOfAll(ghost row: seq<Token>, ghost cells: seq<Cell>, sources: seq<Option<Span>>, blanks: seq<Found>)
    returns (ranges: seq<Span>)
    requires AreCells(row, cells) && sources == SourcesOf(cells)
    ensures AllText(row, ranges)
    ensures forall p: nat :: Holds(ranges, p) <==> BlankSource(cells, blanks, p)
    ensures WellFound(cells, blanks) ==> InOrder(ranges, 0, |row|)
  {
    ranges := [];
    for i := 0 to |blanks|
      invariant AllText(row, ranges)
      invariant forall p: nat :: Holds(ranges, p) <==> BlankSource(cells, blanks[..i], p)
      invariant WellFound(cells, blanks) ==> InOrder(ranges, 0, |row|)
    {
      var more := RangesOf(row, cells, sources, blanks[i]);
      if WellFound(cells, blanks) {
        RangesInOrder(row, cells, blanks, i, ranges, more);
      }
      forall p: nat ensures Holds(ranges + more, p) <==> BlankSource(cells, blanks[..i + 1], p) {
        HoldsAppend(ranges, more, p);
        BlankSourceStep(cells, blanks, i, p);
      }
      ranges := ranges + more;
    }
    PrefixAll(blanks);
  }
}
