/**
 * Marking the blanks of a draft (markBlanks, stripBlankMarks and blankMarksToTags in
 * packages/shared/src/blanks.ts): the marks come off again, alternate, stand around whole text only,
 * and become markup that nests as the content did.
 */
module BlankMarker {
  import opened BlankFinder
  import opened BlankRanges
  import opened Markup
  import opened Options
  import opened Prefixes
  import opened Spans
  import opened Units

  const OPEN: Unit := 0xE000
  const CLOSE: Unit := 0xE001

  predicate IsMark(c: Unit) {
    c == OPEN || c == CLOSE
  }

  predicate Unmarked(t: Text) {
    forall i :: 0 <= i < |t| ==> !IsMark(t[i])
  }

  /** stripBlankMarks */
  function StripMarks(t: Text): (r: Text)
    ensures Unmarked(r)
  {
    if t == [] then [] else (if IsMark(t[0]) then [] else [t[0]]) + StripMarks(t[1..])
  }

  lemma {:induction false} StripConcat(a: Text, b: Text)
    ensures StripMarks(a + b) == StripMarks(a) + StripMarks(b)
  {
    if a == [] {
      assert a + b == b;
    } else {
      assert (a + b)[1..] == a[1..] + b;
      StripConcat(a[1..], b);
    }
  }

  lemma {:induction false} StripUnmarked(t: Text)
    requires Unmarked(t)
    ensures StripMarks(t) == t
  {
    if t != [] {
      StripUnmarked(t[1..]);
    }
  }

  // ----- putting marks in ------------------------------------------------------------------------------

  /** The loop over the sorted ranges: a range that starts before the last one ended is skipped. */
  function Kept(ranges: seq<Span>, at: nat): seq<Span> {
    if ranges == [] then []
    else if ranges[0].start < at then Kept(ranges[1..], at)
    else [ranges[0]] + Kept(ranges[1..], ranges[0].end)
  }

  lemma InOrderTail(ms: seq<Span>, from: nat, to: nat)
    requires InOrder(ms, from, to) && ms != []
    ensures InOrder(ms[1..], ms[0].end, to)
  {
  }

  lemma {:induction false} KeptInOrder(ranges: seq<Span>, at: nat, to: nat)
    requires forall r :: r in ranges ==> r.start < r.end <= to
    ensures InOrder(Kept(ranges, at), at, to)
    ensures forall r :: r in Kept(ranges, at) ==> r in ranges
  {
    if ranges != [] {
      assert ranges[0] in ranges;
      KeptInOrder(ranges[1..], if ranges[0].start < at then at else ranges[0].end, to);
      if ranges[0].start >= at {
        InOrderCons(ranges[0], Kept(ranges[1..], ranges[0].end), at, to);
      }
    }
  }

  /** Nothing is skipped when the ranges are in order. */
  lemma {:induction false} KeepsAll(ranges: seq<Span>, at: nat, to: nat)
    requires InOrder(ranges, at, to)
    ensures Kept(ranges, at) == ranges
  {
    if ranges != [] {
      InOrderTail(ranges, at, to);
      KeepsAll(ranges[1..], ranges[0].end, to);
    }
  }

  /** The content from `at` on with `open` and `close` around each range. */
  function Inserted(s: Text, kept: seq<Span>, at: nat, open: Text, close: Text): Text
    requires InOrder(kept, at, |s|) && at <= |s|
    decreases kept
  {
    if kept == [] then s[at..]
    else
      InOrderTail(kept, at, |s|);
      s[at..kept[0].start] + open + s[kept[0].start..kept[0].end] + close
      + Inserted(s, kept[1..], kept[0].end, open, close)
  }

  function Marked(s: Text, kept: seq<Span>, at: nat): Text
    requires InOrder(kept, at, |s|) && at <= |s|
  {
    Inserted(s, kept, at, [OPEN], [CLOSE])
  }

  /** The marks come off: what is left is the content. */
  lemma {:induction false} StripInserted(s: Text, kept: seq<Span>, at: nat)
    requires Unmarked(s) && InOrder(kept, at, |s|) && at <= |s|
    ensures StripMarks(Marked(s, kept, at)) == s[at..]
    decreases kept
  {
    if kept == [] {
      StripUnmarked(s[at..]);
    } else {
      var from, to := kept[0].start, kept[0].end;
      var rest := Marked(s, kept[1..], to);
      InOrderTail(kept, at, |s|);
      StripInserted(s, kept[1..], to);
      StripFront(s[at..from], s[from..to], rest);
      assert s[at..from] + s[from..to] + s[to..] == s[at..];
    }
  }

  lemma StripFront(a: Text, b: Text, rest: Text)
    requires Unmarked(a) && Unmarked(b)
    ensures StripMarks(a + [OPEN] + b + [CLOSE] + rest) == a + b + StripMarks(rest)
  {
    Around(a, [OPEN], b, [CLOSE], rest);
    StripConcat(a, [OPEN] + (b + ([CLOSE] + rest)));
    StripMark(OPEN, b + ([CLOSE] + rest));
    StripConcat(b, [CLOSE] + rest);
    StripMark(CLOSE, rest);
    StripUnmarked(a);
    StripUnmarked(b);
    ConcatAssoc(a, b, StripMarks(rest));
  }

  lemma StripMark(c: Unit, rest: Text)
    requires IsMark(c)
    ensures StripMarks([c] + rest) == StripMarks(rest)
  {
    assert ([c] + rest)[1..] == rest;
  }

  lemma Around(a: Text, open: Text, b: Text, close: Text, rest: Text)
    ensures a + open + b + close + rest == a + (open + (b + (close + rest)))
  {
  }

  /** Opening and closing marks alternate, and the last one closes. */
  predicate Alternates(t: Text, inside: bool) {
    if t == [] then !inside
    else if t[0] == OPEN then !inside && Alternates(t[1..], true)
    else if t[0] == CLOSE then inside && Alternates(t[1..], false)
    else Alternates(t[1..], inside)
  }

  lemma {:induction false} AlternatesAfter(a: Text, b: Text, inside: bool)
    requires Unmarked(a)
    ensures Alternates(a + b, inside) == Alternates(b, inside)
  {
    if a == [] {
      assert a + b == b;
    } else {
      assert (a + b)[1..] == a[1..] + b;
      AlternatesAfter(a[1..], b, inside);
    }
  }

  lemma {:induction false} MarksAlternate(s: Text, kept: seq<Span>, at: nat)
    requires Unmarked(s) && InOrder(kept, at, |s|) && at <= |s|
    ensures Alternates(Marked(s, kept, at), false)
    decreases kept
  {
    if kept == [] {
      AlternatesAfter(s[at..], [], false);
      assert s[at..] + [] == s[at..];
    } else {
      var from, to := kept[0].start, kept[0].end;
      var rest := Marked(s, kept[1..], to);
      InOrderTail(kept, at, |s|);
      MarksAlternate(s, kept[1..], to);
      AlternatesPair(s[at..from], s[from..to], rest);
    }
  }

  lemma AlternatesPair(a: Text, b: Text, rest: Text)
    requires Unmarked(a) && Unmarked(b)
    ensures Alternates(a + [OPEN] + b + [CLOSE] + rest, false) == Alternates(rest, false)
  {
    Around(a, [OPEN], b, [CLOSE], rest);
    AlternatesAfter(a, [OPEN] + (b + ([CLOSE] + rest)), false);
    assert ([OPEN] + (b + ([CLOSE] + rest)))[1..] == b + ([CLOSE] + rest);
    AlternatesAfter(b, [CLOSE] + rest, true);
    assert ([CLOSE] + rest)[1..] == rest;
  }

  // ----- the operations -----------------------------------------------------------------------------------

  /** Ranges to mark: in order, each whole tokens of written text. */
  ghost predicate AreMarks(s: Text, kept: seq<Span>) {
    InOrder(kept, 0, |s|) && AllText(Row(IsHtml(s), s), kept)
  }

  lemma RangesFit(row: seq<Token>, ranges: seq<Span>)
    requires IsRow(row) && AllText(row, ranges)
    ensures forall r :: r in ranges ==> r.start < r.end <= |row|
  {
    forall r | r in ranges ensures r.start < r.end <= |row| {
      assert IsTextRange(row, r);
    }
  }

  lemma KeepStep(s: Text, ranges: seq<Span>, i: nat, at: nat)
    requires i < |ranges| && at <= ranges[i].start && at <= |s| && InOrder(Kept(ranges[i..], at), at, |s|)
    ensures Kept(ranges[i..], at) == [ranges[i]] + Kept(ranges[i + 1..], ranges[i].end)
    ensures at <= ranges[i].start < ranges[i].end <= |s|
        && InOrder(Kept(ranges[i + 1..], ranges[i].end), ranges[i].end, |s|)
    ensures Marked(s, Kept(ranges[i..], at), at)
         == s[at..ranges[i].start] + [OPEN] + s[ranges[i].start..ranges[i].end] + [CLOSE]
            + Marked(s, Kept(ranges[i + 1..], ranges[i].end), ranges[i].end)
  {
    var rest := Kept(ranges[i + 1..], ranges[i].end);
    assert ranges[i..][1..] == ranges[i + 1..];
    InOrderTail([ranges[i]] + rest, at, |s|);
    assert ([ranges[i]] + rest)[1..] == rest;
  }

  /** The state of the loop: what is marked so far, and what is to come. */
  ghost predicate Inserting(s: Text, ranges: seq<Span>, i: nat, at: nat, marked: Text, kept: seq<Span>) {
    && i <= |ranges| && at <= |s|
    && InOrder(Kept(ranges[i..], at), at, |s|) && InOrder(Kept(ranges, 0), 0, |s|)
    && kept + Kept(ranges[i..], at) == Kept(ranges, 0)
    && marked + Marked(s, Kept(ranges[i..], at), at) == Marked(s, Kept(ranges, 0), 0)
  }

  lemma InsertSkip(s: Text, ranges: seq<Span>, i: nat, at: nat, marked: Text, kept: seq<Span>)
    requires Inserting(s, ranges, i, at, marked, kept) && i < |ranges| && ranges[i].start < at
    ensures Inserting(s, ranges, i + 1, at, marked, kept)
  {
    assert ranges[i..][1..] == ranges[i + 1..];
  }

  lemma InsertNext(s: Text, ranges: seq<Span>, i: nat, at: nat, marked: Text, kept: seq<Span>)
    requires Inserting(s, ranges, i, at, marked, kept) && i < |ranges| && at <= ranges[i].start
    ensures at <= ranges[i].start < ranges[i].end <= |s|
    ensures Inserting(s, ranges, i + 1, ranges[i].end,
                      marked + (s[at..ranges[i].start] + [OPEN] + s[ranges[i].start..ranges[i].end] + [CLOSE]),
                      kept + [ranges[i]])
  {
    var r := ranges[i];
    KeepStep(s, ranges, i, at);
    ConcatAssoc(marked, s[at..r.start] + [OPEN] + s[r.start..r.end] + [CLOSE],
                Marked(s, Kept(ranges[i + 1..], r.end), r.end));
    ConcatAssoc(kept, [r], Kept(ranges[i + 1..], r.end));
  }

  /** The last loop of markBlanks: the marked content, and the ranges it marked. */
  method InsertMarks(s: Text, ranges: seq<Span>) returns (marked: Text, kept: seq<Span>)
    requires forall r :: r in ranges ==> r.start < r.end <= |s|
    ensures kept == Kept(ranges, 0)
    ensures InOrder(kept, 0, |s|) && marked == Marked(s, kept, 0)
  {
    KeptInOrder(ranges, 0, |s|);
    marked, kept := [], [];
    var at: nat := 0;
    assert ranges[0..] == ranges;
    for i := 0 to |ranges|
      invariant Inserting(s, ranges, i, at, marked, kept)
    {
      var r := ranges[i];
      if r.start < at {
        InsertSkip(s, ranges, i, at, marked, kept);
      } else {
        InsertNext(s, ranges, i, at, marked, kept);
        marked := marked + (s[at..r.start] + [OPEN] + s[r.start..r.end] + [CLOSE]);
        kept := kept + [r];
        at := r.end;
      }
    }
    marked := marked + s[at..];
    assert kept == kept + [];
  }

  /** markBlanks after the blanks are found. */
  method MarkFound(s: Text, blanks: seq<Found>, sources: seq<Option<Span>>) returns (marked: Text, kept: seq<Span>)
    requires sources == SourcesOf(Projected(s))
    ensures AreMarks(s, kept) && marked == Marked(s, kept, 0)
    ensures forall p: nat :: Holds(kept, p) ==> BlankSource(Projected(s), blanks, p)
    ensures WellFound(Projected(s), blanks) ==>
              forall p: nat :: Holds(kept, p) <==> BlankSource(Projected(s), blanks, p)
  {
    ghost var row := Row(IsHtml(s), s);
    ghost var cells := Projected(s);
    CellsAreCells(row);
    var ranges := RangesOfAll(row, cells, sources, blanks);
    SortedMembers(ranges);
    ghost var found := ranges;
    ranges := SortSpans(ranges);
    RangesFit(row, ranges);
    marked, kept := InsertMarks(s, ranges);
    KeptInOrder(ranges, 0, |s|);
    if WellFound(cells, blanks) {
      SortedAlready(found);
      KeepsAll(ranges, 0, |s|);
    }
    forall p: nat | Holds(kept, p) ensures BlankSource(cells, blanks, p) {
      var r :| r in kept && InRange(r, p);
      assert r in found;
      assert Holds(found, p);
    }
  }

  /**
   * markBlanks, with any finder: the content without marks, the finder's blanks in its text, and the
   * marks around text that comes from a blank.
   */
  method MarkBlanks(content: Text, find: Text -> seq<Found>) returns (marked: Text, blanks: seq<Found>, kept: seq<Span>)
    ensures var s := StripMarks(content);
      && blanks == find(TextOf(Projected(s)))
      && AreMarks(s, kept) && marked == Marked(s, kept, 0)
      && (forall p: nat :: Holds(kept, p) ==> BlankSource(Projected(s), blanks, p))
    ensures StripMarks(marked) == StripMarks(content)
    ensures Alternates(marked, false)
  {
    var clean := StripMarks(content);
    var text, sources := ProjectContent(clean);
    blanks := find(text);
    if blanks == [] {
      marked, kept := clean, [];
    } else {
      marked, kept := MarkFound(clean, blanks, sources);
    }
    StripInserted(clean, kept, 0);
    MarksAlternate(clean, kept, 0);
  }

  function AsFound(blanks: seq<Span>): (fs: seq<Found>)
    ensures |fs| == |blanks| && forall i :: 0 <= i < |fs| ==> fs[i] == Found(blanks[i].start, blanks[i].end)
  {
    seq(|blanks|, i requires 0 <= i < |blanks| => Found(blanks[i].start, blanks[i].end))
  }

  /** Place p of the content is a source of text inside the range b of the text. */
  predicate SpanSource(cells: seq<Cell>, b: Span, p: nat) {
    exists k :: b.start <= k < b.end && k < |cells| && IsSource(cells[k], p)
  }

  /** Place p of the content is a source of text inside a blank. */
  ghost predicate InBlank(cells: seq<Cell>, p: nat) {
    exists b :: IsBlank(TextOf(cells), b) && SpanSource(cells, b, p)
  }

  lemma FoundSource(cells: seq<Cell>, b: Span, p: nat)
    requires b.start < b.end <= |cells|
    ensures SpanSource(cells, b, p)
       <==> Sourced(cells, First(Found(b.start, b.end)), Last(Found(b.start, b.end), |cells|), p)
  {
  }

  lemma FoundSources(cells: seq<Cell>, blanks: seq<Span>, p: nat)
    requires InOrder(blanks, 0, |cells|)
    ensures BlankSource(cells, AsFound(blanks), p) <==> exists b :: b in blanks && SpanSource(cells, b, p)
  {
    var fs := AsFound(blanks);
    if b :| b in blanks && SpanSource(cells, b, p) {
      var i :| 0 <= i < |blanks| && blanks[i] == b;
      FoundSource(cells, b, p);
      assert fs[i] in fs;
    }
    if f :| f in fs && Sourced(cells, First(f), Last(f, |cells|), p) {
      var i :| 0 <= i < |fs| && fs[i] == f;
      FoundSource(cells, blanks[i], p);
      assert blanks[i] in blanks;
    }
  }

  lemma FoundIsBlank(cells: seq<Cell>, blanks: seq<Span>, p: nat)
    requires InOrder(blanks, 0, |cells|) && forall b :: b in blanks <==> IsBlank(TextOf(cells), b)
    ensures BlankSource(cells, AsFound(blanks), p) <==> InBlank(cells, p)
  {
    FoundSources(cells, blanks, p);
  }

  lemma FoundIsWellFound(cells: seq<Cell>, blanks: seq<Span>)
    requires InOrder(blanks, 0, |cells|) && forall b :: b in blanks <==> IsBlank(TextOf(cells), b)
    ensures WellFound(cells, AsFound(blanks))
  {
    var fs := AsFound(blanks);
    forall i | 0 <= i < |fs| ensures WellPlaced(cells, fs[i]) {
      assert blanks[i] in blanks;
      BlankBounds(TextOf(cells), blanks[i]);
    }
  }

  /**
   * markBlanks with findBlanks: the marks stand around the sources of the blanks' text and around
   * nothing else. No range is lost.
   */
  method MarkDraft(content: Text) returns (marked: Text, kept: seq<Span>)
    ensures var s := StripMarks(content);
      && AreMarks(s, kept) && marked == Marked(s, kept, 0)
      && forall p: nat :: Holds(kept, p) <==> InBlank(Projected(s), p)
  {
    var clean := StripMarks(content);
    var text, sources := ProjectContent(clean);
    var blanks := FindBlanks(text);
    ghost var cells := Projected(clean);
    FoundIsWellFound(cells, blanks);
    marked, kept := MarkFound(clean, AsFound(blanks), sources);
    forall p: nat ensures BlankSource(cells, AsFound(blanks), p) <==> InBlank(cells, p) {
      FoundIsBlank(cells, blanks, p);
    }
  }
}
