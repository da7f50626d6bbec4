/**
 * Finding the blanks of a draft's text (findBlanks in packages/shared/src/blanks.ts). Each regular
 * expression is a hand-written matcher; `Matches` is matchAll, leftmost first and not overlapping.
 */
module BlankFinder {
  import opened Options
  import opened Prefixes
  import opened Spans
  import opened Units

  // ----- the matchers -------------------------------------------------------------------------------

  /** The expressions that findBlanks runs over the whole text. */
  datatype Rule = Marker | DayOfDate | Underscores

  /** `[To be confirmed: ...]`: to the first closing bracket. */
  function ConfirmEnd(t: Text, at: nat): (e: Option<nat>)
    requires at <= |t|
    ensures e.Some? ==> at < e.value - 1 < |t| && t[at] == '[' as int && t[e.value - 1] == ']' as int
  {
    var head := U("[to be confirmed:");
    if WordAt(t, at, head) then
      assert head[0] == '[' as int && Lower(t[at + 0]) == head[0];
      var close := IndexOf(t, ']' as int, at + |head|);
      if close.Some? then Some(close.value + 1) else None
    else None
  }

  /** `{{MISSING: ...}}`: the label holds no closing brace. */
  function MissingEnd(t: Text, at: nat): (e: Option<nat>)
    requires at <= |t|
    ensures e.Some? ==> at < e.value - 1 < |t| && t[at] == '{' as int && t[e.value - 1] == '}' as int
  {
    var head := U("{{");
    if !WordAt(t, at, head) then None
    else
      assert head[0] == '{' as int && Lower(t[at + 0]) == head[0];
      var word := SkipSpace(t, at + 2);
      if !WordAt(t, word, U("missing")) then None
      else
        var colon := SkipSpace(t, word + 7);
        if !WordAt(t, colon, U(":")) then None
        else
          var close := IndexOf(t, '}' as int, colon + 1);
          if close.Some? && close.value + 1 < |t| && t[close.value + 1] == '}' as int
          then Some(close.value + 2) else None
  }

  const SECTION: Text := U("[section ") + [0x2014] + U(" verify before filing]")
  const AUTHORITY: Text := U("[authority ") + [0x2014] + U(" add if relied upon]")

  function MarkerEnd(t: Text, at: nat): (e: Option<nat>)
    requires at <= |t|
    ensures e.Some? ==> at < e.value - 1 < |t| && t[e.value - 1] != UNDERSCORE
    ensures e.Some? ==> t[at] == '[' as int || t[at] == '{' as int
  {
    var confirm := ConfirmEnd(t, at);
    var missing := MissingEnd(t, at);
    if confirm.Some? then confirm
    else if missing.Some? then missing
    else if WordAt(t, at, SECTION) then
      assert SECTION[0] == '[' as int && SECTION[|SECTION| - 1] == ']' as int;
      Some(at + |SECTION|)
    else if WordAt(t, at, AUTHORITY) then
      assert AUTHORITY[0] == '[' as int && AUTHORITY[|AUTHORITY| - 1] == ']' as int;
      Some(at + |AUTHORITY|)
    else None
  }

  /** `20__`, `___` or four digits, the year of a day-of date. */
  function YearEnd(t: Text, at: nat): (e: Option<nat>)
    requires at <= |t|
    ensures e.Some? ==> at < e.value <= |t| && EndsRun(t, e.value)
  {
    if WordAt(t, at, U("20")) && RunEnd(t, at + 2) >= at + 4 then Some(RunEnd(t, at + 2))
    else if RunEnd(t, at) >= at + 3 then Some(RunEnd(t, at))
    else if at + 4 <= |t| && IsDigit(t[at]) && IsDigit(t[at + 1]) && IsDigit(t[at + 2]) && IsDigit(t[at + 3])
    then Some(at + 4)
    else None
  }

  /** No run of underscores goes on across `at`. */
  predicate EndsRun(t: Text, at: nat)
    requires at <= |t|
  {
    at == 0 || at == |t| || t[at - 1] != UNDERSCORE || t[at] != UNDERSCORE
  }

  /** Where the year of a date would start whose month ends at `at`. */
  function YearAt(t: Text, at: nat): (y: nat)
    requires at <= |t|
    ensures y <= |t|
  {
    var s := SkipBlank(t, at);
    SkipBlank(t, if s < |t| && t[s] == ',' as int then s + 1 else s)
  }

  /** Where a date ends whose month starts at `m`. */
  function MonthEnd(t: Text, m: nat): (e: Option<nat>)
    requires m <= |t|
    ensures e.Some? ==> m < e.value <= |t| && EndsRun(t, e.value)
  {
    var monthEnd := RunEnd(t, m);
    if monthEnd < m + 3 then None
    else
      var end := YearEnd(t, YearAt(t, monthEnd));
      if end.Some? then end else Some(monthEnd)
  }

  /** Where the month starts of a date that has " of " at `x`. */
  function MonthAfterOf(t: Text, x: nat): (m: Option<nat>)
    requires x <= |t|
    ensures m.Some? ==> x < m.value <= |t|
  {
    var of := SkipBlank(t, x);
    if of == x || !WordAt(t, of, U("of")) || SkipBlank(t, of + 2) == of + 2 then None else Some(SkipBlank(t, of + 2))
  }

  /** Where the month starts of a date that has " day of " at `x`. */
  function MonthAt(t: Text, x: nat): (m: Option<nat>)
    requires x <= |t|
    ensures m.Some? ==> x < m.value <= |t|
  {
    var day := SkipBlank(t, x);
    if day == x || !WordAt(t, day, U("day")) then None else MonthAfterOf(t, day + 3)
  }

  const SUFFIXES: seq<Text> := [U("st"), U("nd"), U("rd"), U("th")]

  predicate IsSuffixed(t: Text, q: nat) {
    exists w :: w in SUFFIXES && WordAt(t, q, w)
  }

  /** Where " day of " would start of a date whose first run of underscores ends at `r`. */
  function DayAt(t: Text, r: nat): (x: nat)
    requires r <= |t|
    ensures r <= x <= |t|
  {
    var q := SkipBlank(t, r);
    if IsSuffixed(t, q) then q + 2 else r
  }

  /** A day-of date after its first run of underscores, which ends at `r`. */
  function DayOfRest(t: Text, r: nat): (e: Option<nat>)
    requires r <= |t|
    ensures e.Some? ==> r < e.value <= |t| && EndsRun(t, e.value)
  {
    var month := MonthAt(t, DayAt(t, r));
    if month.Some? then MonthEnd(t, month.value) else None
  }

  function DayOfEnd(t: Text, at: nat): (e: Option<nat>)
    requires at <= |t|
    ensures e.Some? ==> at + 3 < e.value <= |t| && EndsRun(t, e.value) && RunEnd(t, at) >= at + 3
  {
    if RunEnd(t, at) < at + 3 then None else DayOfRest(t, RunEnd(t, at))
  }

  function UnderscoresEnd(t: Text, at: nat): (e: Option<nat>)
    requires at <= |t|
    ensures e.Some? ==> at + 3 <= e.value <= |t| && EndsRun(t, e.value) && e.value == RunEnd(t, at)
  {
    if RunEnd(t, at) < at + 3 then None else Some(RunEnd(t, at))
  }

  /** Where a match of the rule that starts at `at` ends. */
  function MatchEnd(rule: Rule, t: Text, at: nat): (e: Option<nat>)
    requires at <= |t|
    ensures e.Some? ==> at < e.value <= |t|
  {
    match rule
    case Marker => MarkerEnd(t, at)
    case DayOfDate => DayOfEnd(t, at)
    case Underscores => UnderscoresEnd(t, at)
  }

  /** For each place of the text, where a match that starts there ends. */
  function MatchEnds(rule: Rule, t: Text): (es: seq<Option<nat>>)
    ensures |es| == |t| && AreEnds(es) && forall i :: 0 <= i < |t| ==> es[i] == MatchEnd(rule, t, i)
  {
    seq(|t|, i requires 0 <= i < |t| => MatchEnd(rule, t, i))
  }

  predicate AreEnds(es: seq<Option<nat>>) {
    forall i :: 0 <= i < |es| ==> es[i].Some? ==> i < es[i].value <= |es|
  }

  /** matchAll from `at` on: leftmost matches, one after the other. */
  function Scan(es: seq<Option<nat>>, at: nat): (ms: seq<Span>)
    requires AreEnds(es) && at <= |es|
    decreases |es| - at
  {
    if at == |es| then []
    else if es[at].Some? then [Span(at, es[at].value)] + Scan(es, es[at].value)
    else Scan(es, at + 1)
  }

  /** matchAll */
  function Matches(rule: Rule, t: Text): (ms: seq<Span>)
    ensures InOrder(ms, 0, |t|)
  {
    ScanInOrder(MatchEnds(rule, t), 0);
    Scan(MatchEnds(rule, t), 0)
  }

  lemma {:induction false} ScanInOrder(es: seq<Option<nat>>, at: nat)
    requires AreEnds(es) && at <= |es|
    ensures InOrder(Scan(es, at), at, |es|)
    decreases |es| - at
  {
    if at < |es| {
      if es[at].Some? {
        ScanInOrder(es, es[at].value);
        InOrderCons(Span(at, es[at].value), Scan(es, es[at].value), at, |es|);
      } else {
        ScanInOrder(es, at + 1);
      }
    }
  }

  lemma {:induction false} ScanMatches(es: seq<Option<nat>>, at: nat, m: Span)
    requires AreEnds(es) && at <= |es| && m in Scan(es, at)
    ensures at <= m.start < m.end <= |es| && es[m.start] == Some(m.end)
    decreases |es| - at
  {
    if at < |es| {
      if es[at].Some? {
        if m != Span(at, es[at].value) {
          ScanMatches(es, es[at].value, m);
        }
      } else {
        ScanMatches(es, at + 1, m);
      }
    }
  }

  lemma MatchesMatch(rule: Rule, t: Text, m: Span)
    requires m in Matches(rule, t)
    ensures m.start < m.end <= |t| && MatchEnd(rule, t, m.start) == Some(m.end)
  {
    ScanMatches(MatchEnds(rule, t), 0, m);
  }

  // ----- exceptions ---------------------------------------------------------------------------------

  /** THIS_BEFORE: the line before the date ends in the word "this" and spaces. */
  predicate EndsInThis(before: Text) {
    exists i :: 0 <= i < |before| && WordBoundary(before, i) && WordAt(before, i, U("this"))
      && i + 4 < |before| && SkipBlank(before, i + 4) == |before|
  }

  /** A word that opens a signing block, followed by a word boundary. */
  predicate OpensWith(line: Text, w: Text)
    requires |w| > 0
  {
    var q := SkipBlank(line, 0);
    WordAt(line, q, w) && WordBoundary(line, q + |w|)
  }

  predicate OpensWithSolemnlyAffirmed(line: Text) {
    var q := SkipBlank(line, 0);
    WordAt(line, q, U("solemnly"))
    && var r := SkipBlank(line, q + 8);
      r > q + 8 && WordAt(line, r, U("affirmed")) && WordBoundary(line, r + 8)
  }

  /** SIGNING_BLOCK_START */
  predicate OpensSigningBlock(line: Text) {
    || OpensWith(line, U("verified")) || OpensWith(line, U("verification")) || OpensWithSolemnlyAffirmed(line)
    || OpensWith(line, U("sworn")) || OpensWith(line, U("affirmed")) || OpensWith(line, U("jurat"))
  }

  /** SIGNING_BLOCK_HEADING */
  predicate IsSigningHeading(line: Text) {
    var q := SkipBlank(line, 0);
    var w := if WordAt(line, q, U("verification")) then 12 else if WordAt(line, q, U("jurat")) then 5 else 0;
    w > 0 && q + w <= |line|
    && var r := SkipBlank(line, q + w);
      SkipBlank(line, if r < |line| && line[r] == ':' as int then r + 1 else r) == |line|
  }

  /** An empty line at `at`: its newline, blank space, and the next newline. */
  predicate EmptyLineAt(t: Text, at: nat) {
    at < |t| && t[at] == NEWLINE
    && var q := SkipBlank(t, at + 1); q < |t| && t[q] == NEWLINE
  }

  /** paragraphStartOf: just after the last empty line that begins before `at`. */
  function ParagraphStart(t: Text, at: nat): (s: nat)
    requires at <= |t|
    ensures s <= |t|
    decreases at
  {
    if at == 0 then 0
    else if EmptyLineAt(t, at - 1) then SkipBlank(t, at) + 1
    else ParagraphStart(t, at - 1)
  }

  function TrimEnd(t: Text): (r: Text)
    ensures r <= t
  {
    if t != [] && IsSpace(t[|t| - 1]) then TrimEnd(t[..|t| - 1]) else t
  }

  function Slice(t: Text, from: nat, to: nat): Text
    requires to <= |t|
  {
    if from <= to then t[from..to] else []
  }

  /** inSigningBlock */
  predicate InSigningBlock(t: Text, at: nat)
    requires at <= |t|
  {
    var start := ParagraphStart(t, at);
    var before := TrimEnd(t[..start]);
    OpensSigningBlock(t[start..LineEnd(t, start)])
    || IsSigningHeading(before[LineStart(before, |before|)..])
  }

  /** isExemptSigningDate */
  predicate IsExemptDate(t: Text, start: nat)
    requires start <= |t|
  {
    EndsInThis(t[LineStart(t, start)..start]) || InSigningBlock(t, start)
  }

  function WithoutDotsAndSpaces(line: Text): Text {
    if line == [] then []
    else (if line[0] == '.' as int || IsSpace(line[0]) then [] else [line[0]]) + WithoutDotsAndSpaces(line[1..])
  }

  /** isPartySeparator */
  predicate IsPartySeparator(line: Text) {
    var word := LowerAll(WithoutDotsAndSpaces(line));
    word == U("versus") || word == U("vs") || word == U("v/s")
  }

  /** The first line from `at` on that is only VERSUS, VS or V/S. */
  function SeparatorFrom(t: Text, at: nat): (s: Option<nat>)
    requires at <= |t|
    ensures s.Some? ==> s.value <= |t|
    decreases |t| - at
  {
    var end := LineEnd(t, at);
    if IsPartySeparator(t[at..end]) then Some(at)
    else if end == |t| then None
    else SeparatorFrom(t, end + 1)
  }

  /** PARAGRAPH_ONE at `at`. */
  predicate ParagraphOneAt(t: Text, at: nat)
    requires at <= |t|
  {
    (at == 0 || IsLineEnd(t[at - 1]))
    && var q := SkipBlank(t, at);
      q < |t| && t[q] == '1' as int
      && var r := SkipBlank(t, q + 1);
        r < |t| && (t[r] == '.' as int || t[r] == ')' as int)
        && (r + 1 == |t| || IsBlankSpace(t[r + 1]) || IsLineEnd(t[r + 1]))
  }

  function ParagraphOneFrom(t: Text, at: nat): (s: Option<nat>)
    requires at <= |t|
    ensures s.Some? ==> s.value <= |t|
    decreases |t| - at
  {
    if ParagraphOneAt(t, at) then Some(at) else if at == |t| then None else ParagraphOneFrom(t, at + 1)
  }

  /** causeTitleEnd: the separator line or paragraph 1, whichever comes first. */
  function CauseTitleEnd(t: Text): Option<nat> {
    var sep := SeparatorFrom(t, 0);
    var one := ParagraphOneFrom(t, 0);
    if sep.None? then one else if one.None? then sep
    else Some(if sep.value < one.value then sep.value else one.value)
  }

  /** REGISTRY_NUMBER at `at`: the span of its underscores. */
  function RegistryAt(t: Text, at: nat): (r: Option<Span>)
    requires at <= |t|
    ensures r.Some? ==> at < r.value.start && IsRun(t, r.value)
  {
    var head := U("no.");
    if !WordAt(t, at, head) || !WordBoundary(t, at) then None
    else
      assert head[2] == '.' as int && Lower(t[at + 2]) == head[2];
      var q := SkipBlank(t, at + 3);
      var e := RunEnd(t, q);
      var s := SkipBlank(t, e);
      if e < q + 3 || !WordAt(t, s, U("of")) || !WordBoundary(t, s + 2) then None
      else Some(Span(q, e))
  }

  /** The first REGISTRY_NUMBER from `at` on: where it starts, and its underscores. */
  function FirstRegistry(t: Text, at: nat): (r: Option<(nat, Span)>)
    requires at <= |t|
    ensures r.Some? ==> r.value.0 <= |t| && IsRun(t, r.value.1)
    decreases |t| - at
  {
    var r := RegistryAt(t, at);
    if r.Some? then Some((at, r.value)) else if at == |t| then None else FirstRegistry(t, at + 1)
  }

  /** Blank space, "out", blank space and "of" from `at` on. */
  predicate IsOutOf(t: Text, at: nat)
    requires at <= |t|
  {
    var q := SkipBlank(t, at);
    q > at && WordAt(t, q, U("out"))
    && var r := SkipBlank(t, q + 3);
      r > q + 3 && WordAt(t, r, U("of")) && WordBoundary(t, r + 2)
  }

  predicate NamesCaseAt(t: Text, i: nat)
    requires i <= |t|
  {
    WordBoundary(t, i) && (
      || (WordAt(t, i, U("in")) && WordBoundary(t, i + 2))
      || (WordAt(t, i, U("arising")) && IsOutOf(t, i + 7)))
  }

  /** NOT_REGISTRY_BEFORE: the word "in", or "arising out of". */
  predicate NamesAnotherCase(before: Text) {
    exists i :: 0 <= i < |before| && NamesCaseAt(before, i)
  }

  /** The registry's own number, exempt: the first in the text, inside the cause title. */
  function RegistryNumber(t: Text): (r: Option<Span>)
    ensures r.Some? ==> IsRun(t, r.value)
  {
    var title := CauseTitleEnd(t);
    var first := FirstRegistry(t, 0);
    if title.Some? && first.Some? && first.value.0 < title.value
       && !NamesAnotherCase(t[LineStart(t, first.value.0)..first.value.0])
    then Some(first.value.1) else None
  }

  /** SIGNATURE_LINE: blank space, three underscores or more, then only spaces and underscores. */
  predicate IsSignatureLine(line: Text) {
    var q := SkipBlank(line, 0);
    RunEnd(line, q) >= q + 3 && forall i :: RunEnd(line, q) <= i < |line| ==> IsSpace(line[i]) || line[i] == UNDERSCORE
  }

  predicate OnSignatureLine(t: Text, s: Span)
    requires s.start <= s.end <= |t|
  {
    IsSignatureLine(Slice(t, LineStart(t, s.start), LineEnd(t, s.end)))
  }

  // ----- maximal runs of underscores -----------------------------------------------------------------

  /** A maximal run of three or more underscores. */
  predicate IsRun(t: Text, s: Span) {
    && s.start + 3 <= s.end <= |t|
    && (forall i :: s.start <= i < s.end ==> t[i] == UNDERSCORE)
    && (s.start == 0 || t[s.start - 1] != UNDERSCORE)
    && (s.end == |t| || t[s.end] != UNDERSCORE)
  }

  // ----- what the scans find ---------------------------------------------------------------------------

  /** A match spans whole runs; a scan that gives up inside a run gives up on all of it. */
  predicate WholeRunAt(t: Text, es: seq<Option<nat>>, at: nat)
    requires |es| == |t| && AreEnds(es) && at < |t|
  {
    if es[at].Some? then RunEnd(t, at) >= at + 3 && EndsRun(t, es[at].value) else CleanCut(t, es, at + 1)
  }

  predicate WholeRuns(t: Text, es: seq<Option<nat>>) {
    |es| == |t| && AreEnds(es) && forall at :: 0 <= at < |t| ==> WholeRunAt(t, es, at)
  }

  /** A scan at `at` is not inside a run of underscores, or has given up on that run. */
  predicate CleanCut(t: Text, es: seq<Option<nat>>, at: nat)
    requires |es| == |t| && at <= |t|
  {
    at == |t| || EndsRun(t, at) || es[at].None?
  }

  lemma WholeRunHere(rule: Rule, t: Text, at: nat)
    requires rule != Marker && at < |t|
    ensures WholeRunAt(t, MatchEnds(rule, t), at)
  {
    if at + 1 < |t| && !EndsRun(t, at + 1) {
      assert RunEnd(t, at) == RunEnd(t, at + 1);
    }
  }

  lemma RulesTakeWholeRuns(rule: Rule, t: Text)
    requires rule != Marker
    ensures WholeRuns(t, MatchEnds(rule, t))
  {
    forall at | 0 <= at < |t| ensures WholeRunAt(t, MatchEnds(rule, t), at) {
      WholeRunHere(rule, t, at);
    }
  }

  /** Day-of dates and runs of underscores are found at the start of a maximal run, or not at all. */
  lemma {:induction false} MatchesStartRuns(t: Text, es: seq<Option<nat>>, at: nat, m: Span)
    requires WholeRuns(t, es) && at <= |t| && CleanCut(t, es, at) && m in Scan(es, at)
    ensures m.start < m.end <= |t|
    ensures EndsRun(t, m.start) && EndsRun(t, m.end) && RunEnd(t, m.start) >= m.start + 3
    decreases |t| - at
  {
    assert WholeRunAt(t, es, at);
    if es[at].None? {
      MatchesStartRuns(t, es, at + 1, m);
    } else if m != Span(at, es[at].value) {
      MatchesStartRuns(t, es, es[at].value, m);
    }
  }

  /** Runs of underscores are found exactly where they are maximal and at least three long. */
  lemma {:induction false} RunsAreFound(t: Text, es: seq<Option<nat>>, at: nat, s: Span)
    requires WholeRuns(t, es) && at <= |t| && CleanCut(t, es, at) && IsRun(t, s) && at <= s.start
    requires es[s.start] == Some(s.end)
    requires forall i :: 0 <= i < |t| ==> es[i].Some? ==> es[i].value == RunEnd(t, i)
    ensures s in Scan(es, at)
    decreases |t| - at
  {
    assert WholeRunAt(t, es, at);
    if es[at].None? {
      RunsAreFound(t, es, at + 1, s);
    } else if s.start < es[at].value {
      RunUnique(t, s, Span(at, RunEnd(t, at)));
    } else {
      RunsAreFound(t, es, es[at].value, s);
    }
  }

  lemma UnderscoresAreRuns(t: Text, s: Span)
    ensures s in Matches(Underscores, t) <==> IsRun(t, s)
  {
    var es := MatchEnds(Underscores, t);
    RulesTakeWholeRuns(Underscores, t);
    if s in Matches(Underscores, t) {
      MatchesMatch(Underscores, t, s);
      MatchesStartRuns(t, es, 0, s);
    }
    if IsRun(t, s) {
      RunIsFound(t, s);
      RunsAreFound(t, es, 0, s);
    }
  }

  lemma RunIsFound(t: Text, s: Span)
    requires IsRun(t, s)
    ensures MatchEnd(Underscores, t, s.start) == Some(s.end)
  {
    RunUnique(t, s, Span(s.start, RunEnd(t, s.start)));
  }

  /** A maximal run that starts inside a stretch of underscores that ends a run is that stretch. */
  lemma RunUnique(t: Text, s: Span, r: Span)
    requires IsRun(t, s) && r.start <= s.start <= r.end <= |t| && EndsRun(t, r.start) && r.start < |t|
    requires forall i :: r.start <= i < r.end ==> t[i] == UNDERSCORE
    requires r.end == |t| || t[r.end] != UNDERSCORE
    ensures s == r
  {
  }

  /** A maximal run that overlaps a marker or a day-of date lies inside it. */
  lemma RunInsideMatch(rule: Rule, t: Text, r: Span, m: Span)
    requires rule != Underscores && IsRun(t, r) && m in Matches(rule, t) && Overlaps(r, m)
    ensures Inside(r, m)
  {
    MatchesMatch(rule, t, m);
    if rule == DayOfDate {
      RulesTakeWholeRuns(rule, t);
      MatchesStartRuns(t, MatchEnds(rule, t), 0, m);
    }
    assert r.start < m.start ==> r.start <= m.start - 1 < m.start < r.end;
    assert m.end < r.end ==> r.start <= m.end - 1 < m.end < r.end;
  }

  // ----- the blanks ----------------------------------------------------------------------------------------

  function Markers(t: Text): seq<Span> {
    Matches(Marker, t)
  }

  /** A day-of date that is not part of a marker's label. */
  predicate IsDate(t: Text, d: Span) {
    d in Matches(DayOfDate, t) && !OverlapsAny(d, Markers(t))
  }

  /** A date to be filled in: no signing exception covers it. */
  predicate IsDateToFill(t: Text, d: Span) {
    IsDate(t, d) && d.start <= |t| && !IsExemptDate(t, d.start)
  }

  /** A range no underscore blank may come from: a marker, a date, or the registry's number. */
  ghost predicate IsTaken(t: Text, s: Span) {
    s in Markers(t) || IsDate(t, s) || RegistryNumber(t) == Some(s)
  }

  /** The blanks of a text: markers, dates that are not exempt, and the free runs of underscores. */
  ghost predicate IsBlank(t: Text, s: Span) {
    || s in Markers(t)
    || IsDateToFill(t, s)
    || IsFreeRun(t, s)
  }

  /** `taken.some(...)` for a date: only a marker can overlap it, dates do not overlap each other. */
  lemma DateFreeIffUnmarked(t: Text, dates: seq<Span>, i: nat, taken: seq<Span>)
    requires dates == Matches(DayOfDate, t) && i < |dates|
    requires forall s :: s in taken <==> s in Markers(t) || (s in dates[..i] && IsDate(t, s))
    ensures OverlapsAny(dates[i], taken) <==> OverlapsAny(dates[i], Markers(t))
  {
    if OverlapsAny(dates[i], taken) {
      var m :| m in taken && Overlaps(dates[i], m);
      forall k | 0 <= k < i ensures dates[..i][k] != m {
        assert dates[k].end <= dates[i].start;
      }
    }
  }

  /** The date loop of findBlanks. */
  method AddDates(t: Text, blanks0: seq<Span>, taken0: seq<Span>) returns (blanks: seq<Span>, taken: seq<Span>)
    requires blanks0 == taken0 == Markers(t)
    ensures forall s :: s in taken <==> (s in Markers(t) || IsDate(t, s))
    ensures forall s :: s in blanks <==> (s in Markers(t) || IsDateToFill(t, s))
    ensures Apart(taken) && NonEmpty(taken, |t|) && Apart(blanks)
  {
    blanks, taken := blanks0, taken0;
    var dates := Matches(DayOfDate, t);
    for i := 0 to |dates|
      invariant forall s :: s in taken <==> s in Markers(t) || (s in dates[..i] && IsDate(t, s))
      invariant forall s :: s in blanks <==> (s in Markers(t) || (s in dates[..i] && IsDateToFill(t, s)))
      invariant Apart(taken) && NonEmpty(taken, |t|) && Apart(blanks)
    {
      PrefixStep(dates, i);
      assert dates[i] in dates;
      DateFreeIffUnmarked(t, dates, i, taken);
      if !OverlapsAny(dates[i], taken) {
        assert forall s :: s in blanks ==> s in taken;
        if !IsExemptDate(t, dates[i].start) {
          ApartAppend(blanks, dates[i]);
          blanks := blanks + [dates[i]];
        }
        ApartAppend(taken, dates[i]);
        taken := taken + [dates[i]];
      }
    }
    PrefixAll(dates);
  }

  /** A run of underscores that nothing took and that is no signature line. */
  ghost predicate IsFreeRun(t: Text, s: Span) {
    IsRun(t, s) && (forall x :: IsTaken(t, x) ==> !Overlaps(s, x)) && !OnSignatureLine(t, s)
  }

  lemma FreeRunsApart(t: Text, runs: seq<Span>, i: nat, blanks0: seq<Span>, blanks: seq<Span>)
    requires runs == Matches(Underscores, t) && i < |runs| && IsFreeRun(t, runs[i])
    requires forall s :: s in blanks0 ==> IsTaken(t, s)
    requires forall s :: s in blanks <==> s in blanks0 || (s in runs[..i] && IsFreeRun(t, s))
    ensures !OverlapsAny(runs[i], blanks)
  {
    forall b | b in blanks ensures !Overlaps(runs[i], b) {
      if b in runs[..i] {
        var k: nat :| k < i && runs[..i][k] == b;
        assert runs[k].end <= runs[i].start;
      }
    }
  }

  lemma FreeIffUntaken(t: Text, s: Span, taken: seq<Span>)
    requires IsRun(t, s) && forall x :: x in taken <==> IsTaken(t, x)
    ensures IsFreeRun(t, s) <==> !OverlapsAny(s, taken) && !OnSignatureLine(t, s)
  {
  }

  /** The last loop of findBlanks: runs of underscores that nothing took. */
  method AddRuns(t: Text, blanks0: seq<Span>, taken: seq<Span>) returns (blanks: seq<Span>)
    requires forall s :: s in taken <==> IsTaken(t, s)
    requires forall s :: s in blanks0 ==> s in taken
    requires Apart(blanks0)
    ensures forall s :: s in blanks <==> s in blanks0 || IsFreeRun(t, s)
    ensures Apart(blanks)
  {
    blanks := blanks0;
    var runs := Matches(Underscores, t);
    forall s ensures s in runs <==> IsRun(t, s) {
      UnderscoresAreRuns(t, s);
    }
    for i := 0 to |runs|
      invariant forall s :: s in blanks <==> s in blanks0 || (s in runs[..i] && IsFreeRun(t, s))
      invariant Apart(blanks)
    {
      PrefixStep(runs, i);
      assert IsRun(t, runs[i]);
      FreeIffUntaken(t, runs[i], taken);
      if !OverlapsAny(runs[i], taken) && !OnSignatureLine(t, runs[i]) {
        FreeRunsApart(t, runs, i, blanks0, blanks);
        ApartAppend(blanks, runs[i]);
        blanks := blanks + [runs[i]];
      }
    }
    PrefixAll(runs);
  }

  /**
   * findBlanks: the blanks of the text, in order, not empty and not overlapping. (Labels and context
   * words are left out.)
   */
  method FindBlanks(t: Text) returns (blanks: seq<Span>)
    ensures InOrder(blanks, 0, |t|)
    ensures forall s :: s in blanks <==> IsBlank(t, s)
  {
    var found, taken := AddDates(t, Markers(t), Markers(t));
    var registry := RegistryNumber(t);
    if registry.Some? {
      taken := taken + [registry.value];
    }
    found := AddRuns(t, found, taken);
    assert NonEmpty(found, |t|) by {
      forall i | 0 <= i < |found| ensures found[i].start < found[i].end <= |t| {
        BlankBounds(t, found[i]);
      }
    }
    SortedMembers(found);
    SortedInOrder(found, |t|);
    blanks := SortSpans(found);
  }

  /** A blank is a range of the text and starts with a bracket, a brace or an underscore. */
  lemma BlankBounds(t: Text, s: Span)
    requires s in Markers(t) || IsDate(t, s) || IsRun(t, s)
    ensures s.start < s.end <= |t|
    ensures t[s.start] == '[' as int || t[s.start] == '{' as int || t[s.start] == UNDERSCORE
  {
    if s in Markers(t) {
      MatchesMatch(Marker, t, s);
    } else if IsDate(t, s) {
      MatchesMatch(DayOfDate, t, s);
    }
  }

  // ----- every run of underscores is accounted for -------------------------------------------------------

  /** The run is inside a blank. */
  ghost predicate Covered(t: Text, r: Span) {
    exists b :: IsBlank(t, b) && Inside(r, b)
  }

  /**
   * The exceptions: outside any marker, the run is part of an exempt signing date; or it is part of
   * no date and is the registry's number or stands on a signature line.
   */
  ghost predicate Excepted(t: Text, r: Span)
    requires r.start <= r.end <= |t|
  {
    && !OverlapsAny(r, Markers(t))
    && (|| (exists d :: IsDate(t, d) && Inside(r, d) && d.start <= |t| && IsExemptDate(t, d.start))
        || ((forall d :: IsDate(t, d) ==> !Overlaps(r, d)) && (RegistryNumber(t) == Some(r) || OnSignatureLine(t, r))))
  }

  /**
   * Every maximal run of three or more underscores is inside a blank, unless exactly one of the
   * stated exceptions covers it.
   */
  lemma RunCoveredUnlessExcepted(t: Text, r: Span)
    requires IsRun(t, r)
    ensures Covered(t, r) <==> !Excepted(t, r)
  {
    if OverlapsAny(r, Markers(t)) {
      var m :| m in Markers(t) && Overlaps(r, m);
      RunInsideMatch(Marker, t, r, m);
      assert IsBlank(t, m);
    } else if d :| IsDate(t, d) && Overlaps(r, d) {
      RunInDate(t, r, d);
    } else {
      FreeRun(t, r);
    }
  }

  lemma RunInDate(t: Text, r: Span, d: Span)
    requires IsRun(t, r) && !OverlapsAny(r, Markers(t)) && IsDate(t, d) && Overlaps(r, d)
    ensures Covered(t, r) <==> !Excepted(t, r)
  {
    RunInsideMatch(DayOfDate, t, r, d);
    MatchesMatch(DayOfDate, t, d);
    if IsExemptDate(t, d.start) {
      forall b | IsBlank(t, b) ensures !Inside(r, b) {
        ExemptDateUncovers(t, r, d, b);
      }
    } else {
      assert IsBlank(t, d);
      forall e | IsDate(t, e) && Inside(r, e) ensures e == d {
        OneDate(t, r, d, e);
      }
    }
  }

  /** No blank holds a run of an exempt date. */
  lemma ExemptDateUncovers(t: Text, r: Span, d: Span, b: Span)
    requires IsRun(t, r) && !OverlapsAny(r, Markers(t)) && IsBlank(t, b)
    requires IsDate(t, d) && Overlaps(r, d) && !IsDateToFill(t, d)
    ensures !Inside(r, b)
  {
    if IsDateToFill(t, b) && Overlaps(r, b) {
      OneDate(t, r, d, b);
    }
    if IsFreeRun(t, b) {
      FreeRunNotInDate(t, r, d, b);
    }
  }

  lemma FreeRunNotInDate(t: Text, r: Span, d: Span, b: Span)
    requires IsRun(t, r) && IsFreeRun(t, b) && IsDate(t, d) && Overlaps(r, d)
    ensures !Overlaps(r, b)
  {
    assert IsTaken(t, d);
    if Overlaps(r, b) {
      RunsInside(t, r, b);
    }
  }

  lemma OnlyOneHolds(ms: seq<Span>, to: nat, r: Span, i: nat, j: nat)
    requires InOrder(ms, 0, to) && i < |ms| && j < |ms| && r.start < r.end
    requires Inside(r, ms[i]) && Inside(r, ms[j])
    ensures i == j
  {
  }

  lemma OneDate(t: Text, r: Span, d: Span, e: Span)
    requires IsRun(t, r) && IsDate(t, d) && Overlaps(r, d) && IsDate(t, e) && Overlaps(r, e)
    ensures e == d
  {
    RunInsideMatch(DayOfDate, t, r, d);
    RunInsideMatch(DayOfDate, t, r, e);
    var ms := Matches(DayOfDate, t);
    var i :| 0 <= i < |ms| && ms[i] == d;
    var j :| 0 <= j < |ms| && ms[j] == e;
    OnlyOneHolds(ms, |t|, r, i, j);
  }

  lemma RunsInside(t: Text, r: Span, b: Span)
    requires IsRun(t, r) && IsRun(t, b) && Overlaps(r, b)
    ensures r == b
  {
    RunUnique(t, if r.start <= b.start then b else r, if r.start <= b.start then r else b);
  }

  lemma FreeRun(t: Text, r: Span)
    requires IsRun(t, r) && !OverlapsAny(r, Markers(t)) && forall d :: IsDate(t, d) ==> !Overlaps(r, d)
    ensures Covered(t, r) <==> !Excepted(t, r)
  {
    var registry := RegistryNumber(t);
    if registry.Some? && Overlaps(r, registry.value) {
      RunsInside(t, r, registry.value);
    }
    if registry != Some(r) && !OnSignatureLine(t, r) {
      assert IsBlank(t, r);
    } else {
      forall b | IsBlank(t, b) ensures !Inside(r, b) {
        if Inside(r, b) {
          assert Overlaps(r, b);
          if IsRun(t, b) {
            RunsInside(t, r, b);
          }
        }
      }
    }
  }
}
