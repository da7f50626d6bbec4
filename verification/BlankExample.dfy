/**
 * A draft whose markup stops nesting: a '<' that nothing closes, some text, and a blank (findBlanks,
 * markBlanks and blankMarksToTags in packages/shared/src/blanks.ts).
 */
module BlankExample {
  import opened BlankFinder
  import opened BlankMarker
  import opened BlankNesting
  import opened BlankRanges
  import opened BlankUnclosed
  import opened Markup
  import opened Options
  import opened Spans
  import opened Units

  /** "<b ___" */
  const DRAFT: Text := ['<' as int, 'b' as int, 32, UNDERSCORE, UNDERSCORE, UNDERSCORE]

  const RUN := Span(3, 6)

  // ----- what findBlanks finds in it -----------------------------------------------------------------------

  lemma RunIsRun()
    ensures IsRun(DRAFT, RUN)
  {
  }

  /** No marker is in it: those start with a bracket or a brace. */
  lemma NoMarkers(m: Span)
    ensures m !in Markers(DRAFT)
  {
    if m in Markers(DRAFT) {
      MatchesMatch(Marker, DRAFT, m);
    }
  }

  /** No day-of date is in it: its only underscores end the text. */
  lemma NoDates(d: Span)
    ensures !IsDate(DRAFT, d)
  {
    if d in Matches(DayOfDate, DRAFT) {
      MatchesMatch(DayOfDate, DRAFT, d);
      DatesNeedMore(d.start);
    }
  }

  lemma DatesNeedMore(at: nat)
    requires at < |DRAFT|
    ensures DayOfEnd(DRAFT, at).None?
  {
  }

  /** A registry number has a full stop. */
  lemma {:induction false} RegistryHasStop(t: Text, at: nat)
    requires at <= |t| && FirstRegistry(t, at).Some?
    ensures '.' as int in t
    decreases |t| - at
  {
    if RegistryAt(t, at).Some? {
      var head := U("no.");
      assert head[2] == '.' as int && Lower(t[at + 2]) == head[2];
    } else {
      RegistryHasStop(t, at + 1);
    }
  }

  lemma NoRegistry()
    ensures RegistryNumber(DRAFT) == None
  {
    if FirstRegistry(DRAFT, 0).Some? {
      RegistryHasStop(DRAFT, 0);
    }
  }

  lemma NoSignatureLine()
    ensures !OnSignatureLine(DRAFT, RUN)
  {
    assert LineStart(DRAFT, 1) == 0;
    assert LineStart(DRAFT, 2) == LineStart(DRAFT, 1);
    assert LineStart(DRAFT, 3) == LineStart(DRAFT, 2);
    assert LineEnd(DRAFT, 6) == 6 && DRAFT[0..6] == DRAFT;
  }

  /** The run is in a blank, and every blank is in the run. */
  lemma RunIsBlank()
    ensures exists b :: IsBlank(DRAFT, b) && Inside(RUN, b)
    ensures forall b :: IsBlank(DRAFT, b) ==> 3 <= b.start < b.end <= 6
  {
    RunIsRun();
    forall m ensures m !in Markers(DRAFT) {
      NoMarkers(m);
    }
    forall d ensures !IsDate(DRAFT, d) {
      NoDates(d);
    }
    NoRegistry();
    NoSignatureLine();
    RunCoveredUnlessExcepted(DRAFT, RUN);
    forall b | IsBlank(DRAFT, b) ensures 3 <= b.start < b.end <= 6 {
      BlankBounds(DRAFT, b);
    }
  }

  // ----- where it stands in the content ----------------------------------------------------------------------

  lemma DraftIsText()
    ensures IsHtml(DRAFT) && Unmarked(DRAFT) && FirstUnclosed(DRAFT, 0) && Tags(Reader(true), DRAFT) == []
  {
    assert DRAFT[0..] == DRAFT;
    NoTagsAfter(DRAFT);
  }

  lemma PlainHead(i: nat)
    requires i < |DRAFT|
    ensures Row(true, DRAFT)[i] == Token(1, [DRAFT[i]], Written)
  {
    assert forall k :: 0 <= k < |DRAFT| - i ==> DRAFT[i..][k] == DRAFT[i + k];
  }

  /** A cell for each unit from i on. */
  predicate ArePlain(cells: seq<Cell>, s: Text, i: nat) {
    |cells| + i == |s| && forall k :: 0 <= k < |cells| ==> cells[k] == Cell(s[i + k], Span(i + k, i + k + 1), true)
  }

  lemma ConsPlain(cells: seq<Cell>, s: Text, i: nat)
    requires i < |s| && ArePlain(cells, s, i + 1)
    ensures ArePlain([Cell(s[i], Span(i, i + 1), true)] + cells, s, i)
  {
  }

  /** A row of tokens of one unit each gives a cell for each. */
  lemma {:induction false} PlainCells(row: seq<Token>, s: Text, i: nat)
    requires IsRow(row) && |row| == |s| && i <= |s|
    requires forall k :: 0 <= k < |s| ==> row[k] == Token(1, [s[k]], Written)
    ensures ArePlain(Cells(row, i), s, i)
    decreases |s| - i
  {
    if i < |s| {
      PlainCells(row, s, i + 1);
      PlainTokenCells(row[i], s[i], i);
      ConsPlain(Cells(row, i + 1), s, i);
    }
  }

  lemma PlainTokenCells(h: Token, c: Unit, i: nat)
    requires h == Token(1, [c], Written)
    ensures TokenCells(h, i) == [Cell(c, Span(i, i + 1), true)]
  {
  }

  lemma DraftCells()
    ensures var cells := Projected(DRAFT);
      && TextOf(cells) == DRAFT && |cells| == 6
      && forall k :: 0 <= k < 6 ==> cells[k] == Cell(DRAFT[k], Span(k, k + 1), true)
  {
    DraftIsText();
    forall k | 0 <= k < |DRAFT| ensures Row(true, DRAFT)[k] == Token(1, [DRAFT[k]], Written) {
      PlainHead(k);
    }
    PlainCells(Row(true, DRAFT), DRAFT, 0);
  }

  lemma DraftBlanks(p: nat)
    ensures InBlank(Projected(DRAFT), p) <==> 3 <= p < 6
  {
    var cells := Projected(DRAFT);
    DraftCells();
    RunIsBlank();
    if 3 <= p < 6 {
      var b :| IsBlank(DRAFT, b) && Inside(RUN, b);
      assert IsSource(cells[p], p);
      assert SpanSource(cells, b, p);
    }
  }

  /**
   * The draft nests, and what markBlanks makes of it does not, when the marks become the tags of an
   * element: whatever ranges it marks, as long as they are the blanks' sources.
   */
  lemma UnclosedDraftUnnests(kept: seq<Span>, open: Text, close: Text)
    requires AreMarks(DRAFT, kept) && forall p: nat :: Holds(kept, p) <==> InBlank(Projected(DRAFT), p)
    requires IsPlainTag(open) && IsPlainTag(close) && open != close
    ensures Nest(UseOf(open, close, None), Tags(Reader(true), DRAFT), []) == Some([])
    ensures Nest(UseOf(open, close, None), Tags(Reader(true), Inserted(DRAFT, kept, 0, open, close)), []) == None
  {
    FirstIsInRun(kept);
    DraftIsText();
    FirstRangeUnnests(DRAFT, kept, 0, open, close, UseOf(open, close, None));
  }

  lemma FirstIsInRun(kept: seq<Span>)
    requires AreMarks(DRAFT, kept) && forall p: nat :: Holds(kept, p) <==> InBlank(Projected(DRAFT), p)
    ensures kept != [] && 0 < kept[0].start < kept[0].end <= |DRAFT| && NoLt(DRAFT[kept[0].start..kept[0].end])
  {
    DraftBlanks(3);
    var r :| r in kept && InRange(r, 3);
    assert kept[0] in kept && InRange(kept[0], kept[0].start);
    DraftBlanks(kept[0].start);
    NoLtLater(kept[0].start, kept[0].end);
  }

  lemma NoLtLater(i: nat, j: nat)
    requires 0 < i <= j <= |DRAFT|
    ensures NoLt(DRAFT[i..j])
  {
    forall k | 0 <= k < j - i ensures DRAFT[i..j][k] != '<' as int {
      assert DRAFT[i..j][k] == DRAFT[i + k];
    }
  }
}
