/**
 * The registry's own number, and the cause title it must stand in (findBlanks and causeTitleEnd in
 * packages/shared/src/blanks.ts), said with the expressions that the source tests.
 */
module BlankRegistry {
  import opened BlankExceptions
  import opened BlankFinder
  import opened BlankShapes
  import opened Options
  import opened Patterns
  import opened Units

  // ----- the line that parts the parties --------------------------------------------------------------------

  /** The letters of a word, with any dots and space between them and around them. */
  function Spread(w: Text): Pattern {
    Cat(Many(Dots, 0), if w == [] then TextFoot else Cat(Lit(w[..1]), Spread(w[1..])))
  }

  const SEPARATORS: seq<Text> := [U("versus"), U("vs"), U("v/s")]

  ghost predicate IsSeparator(line: Text) {
    exists w :: w in SEPARATORS && MatchesFrom(Spread(w), line, 0)
  }

  /** Lower-case letters and strokes. */
  predicate IsPlainWord(w: Text) {
    forall i :: 0 <= i < |w| ==> w[i] != '.' as int && !IsSpace(w[i]) && Lower(w[i]) == w[i]
  }

  lemma LetterAt(c: Unit, t: Text, i: nat)
    ensures WordAt(t, i, [c]) <==> i < |t| && Lower(t[i]) == c
  {
    if WordAt(t, i, [c]) {
      assert Lower(t[i + 0]) == [c][0];
    }
  }

  /** What a spread word is at one place: a dot or space to skip, its first letter, or its end. */
  lemma SpreadStep(w: Text, t: Text, i: nat, j: nat)
    requires IsPlainWord(w) && i <= |t|
    ensures Matched(Spread(w), t, i, j)
       <==> if i < |t| && Has(Dots, t[i]) then Matched(Spread(w), t, i + 1, j)
            else if i < |t| then w != [] && Lower(t[i]) == w[0] && Matched(Spread(w[1..]), t, i + 1, j)
            else w == [] && j == i
  {
    var rest := if w == [] then TextFoot else Cat(Lit(w[..1]), Spread(w[1..]));
    SpreadStops(w, t, j);
    if i < |t| && Has(Dots, t[i]) {
      OneMore(rest, t, i, j);
    } else {
      ManyThen(Dots, 0, rest, t, i, i, j);
      if w != [] {
        LitThen(w[..1], Spread(w[1..]), t, i, j);
        assert w[..1] == [w[0]];
        LetterAt(w[0], t, i);
      }
    }
  }

  lemma SpreadStops(w: Text, t: Text, j: nat)
    requires IsPlainWord(w)
    ensures Stops(if w == [] then TextFoot else Cat(Lit(w[..1]), Spread(w[1..])), Dots, t, j)
  {
    if w != [] {
      LitStops(w[..1], Spread(w[1..]), Dots, t, j);
    }
  }

  lemma OneMore(r: Pattern, t: Text, i: nat, j: nat)
    requires i < |t| && Has(Dots, t[i]) && Stops(r, Dots, t, j)
    ensures Matched(Cat(Many(Dots, 0), r), t, i, j) <==> Matched(Cat(Many(Dots, 0), r), t, i + 1, j)
  {
    if Matched(Cat(Many(Dots, 0), r), t, i, j) {
      var m := Parts(Many(Dots, 0), r, t, i, j);
      assert m != i;
      assert Matched(Many(Dots, 0), t, i + 1, m);
    }
    if Matched(Cat(Many(Dots, 0), r), t, i + 1, j) {
      var m := Parts(Many(Dots, 0), r, t, i + 1, j);
      assert Matched(Many(Dots, 0), t, i, m);
    }
  }

  lemma {:induction false} SpreadMeaning(w: Text, t: Text, i: nat)
    requires IsPlainWord(w) && i <= |t|
    ensures MatchesFrom(Spread(w), t, i) <==> LowerAll(WithoutDotsAndSpaces(t[i..])) == w
    decreases |t| - i
  {
    if i == |t| {
      SpreadEnds(w, t);
    } else {
      assert t[i..][1..] == t[i + 1..];
      if Has(Dots, t[i]) {
        SpreadSkips(w, t, i);
        SpreadMeaning(w, t, i + 1);
      } else {
        SpreadReads(w, t, i);
        if w != [] {
          SpreadMeaning(w[1..], t, i + 1);
        }
        LowerFirst(t[i], WithoutDotsAndSpaces(t[i + 1..]), w);
      }
    }
  }

  lemma SpreadEnds(w: Text, t: Text)
    requires IsPlainWord(w)
    ensures MatchesFrom(Spread(w), t, |t|) <==> w == []
  {
    if MatchesFrom(Spread(w), t, |t|) {
      var j: nat :| Matched(Spread(w), t, |t|, j);
      SpreadStep(w, t, |t|, j);
    }
    SpreadStep(w, t, |t|, |t|);
  }

  lemma SpreadSkips(w: Text, t: Text, i: nat)
    requires IsPlainWord(w) && i < |t| && Has(Dots, t[i])
    ensures MatchesFrom(Spread(w), t, i) <==> MatchesFrom(Spread(w), t, i + 1)
  {
    forall j: nat ensures Matched(Spread(w), t, i, j) <==> Matched(Spread(w), t, i + 1, j) {
      SpreadStep(w, t, i, j);
    }
    SameMatches(Spread(w), i, Spread(w), i + 1, t);
  }

  lemma SpreadReads(w: Text, t: Text, i: nat)
    requires IsPlainWord(w) && i < |t| && !Has(Dots, t[i])
    ensures MatchesFrom(Spread(w), t, i)
       <==> w != [] && Lower(t[i]) == w[0] && MatchesFrom(Spread(w[1..]), t, i + 1)
  {
    if w != [] && Lower(t[i]) == w[0] {
      forall j: nat ensures Matched(Spread(w), t, i, j) <==> Matched(Spread(w[1..]), t, i + 1, j) {
        SpreadStep(w, t, i, j);
      }
      SameMatches(Spread(w), i, Spread(w[1..]), i + 1, t);
    } else {
      forall j: nat ensures !Matched(Spread(w), t, i, j) {
        SpreadStep(w, t, i, j);
      }
    }
  }

  lemma LowerFirst(c: Unit, rest: Text, w: Text)
    ensures LowerAll([c] + rest) == w <==> w != [] && Lower(c) == w[0] && LowerAll(rest) == w[1..]
  {
    assert ([c] + rest)[1..] == rest;
    if w != [] {
      assert w == [w[0]] + w[1..];
    }
  }

  lemma SeparatorMeaning(line: Text)
    ensures IsPartySeparator(line) <==> IsSeparator(line)
  {
    forall w | w in SEPARATORS ensures MatchesFrom(Spread(w), line, 0) <==> LowerAll(WithoutDotsAndSpaces(line)) == w {
      SeparatorsPlain(w);
      SpreadMeaning(w, line, 0);
      assert line[0..] == line;
    }
    assert U("versus") in SEPARATORS && U("vs") in SEPARATORS && U("v/s") in SEPARATORS;
  }

  lemma SeparatorsPlain(w: Text)
    requires w in SEPARATORS
    ensures IsPlainWord(w)
  {
  }

  // ----- where the cause title ends -----------------------------------------------------------------------------

  predicate IsLineStart(t: Text, at: nat) {
    at <= |t| && (at == 0 || t[at - 1] == NEWLINE)
  }

  predicate SeparatorAt(t: Text, at: nat) {
    IsLineStart(t, at) && IsPartySeparator(t[at..LineEnd(t, at)])
  }

  lemma {:induction false} SeparatorFirst(t: Text, at: nat)
    requires IsLineStart(t, at)
    ensures var s := SeparatorFrom(t, at); s.Some? ==> at <= s.value && SeparatorAt(t, s.value)
    ensures forall i: nat :: at <= i && SeparatorAt(t, i) ==>
              SeparatorFrom(t, at).Some? && SeparatorFrom(t, at).value <= i
    decreases |t| - at
  {
    var end := LineEnd(t, at);
    if !IsPartySeparator(t[at..end]) {
      forall i: nat | at < i <= end ensures !SeparatorAt(t, i) {
      }
      if end < |t| {
        SeparatorFirst(t, end + 1);
      }
    }
  }

  /** PARAGRAPH_ONE */
  function ParagraphOne(): Pattern {
    Cat(LineHead, Cat(Many(Blanks, 0), Cat(Lit(U("1")), AfterOne())))
  }

  function AfterOne(): Pattern {
    Cat(Many(Blanks, 0), Cat(OneOf([U("."), U(")")]), AfterStop()))
  }

  function AfterStop(): Pattern {
    Either(Times(Blanks, 1), LineFoot)
  }

  /** What follows the number of paragraph 1 and its stop. */
  predicate StopAt(t: Text, r: nat) {
    && r < |t| && (t[r] == '.' as int || t[r] == ')' as int)
    && (r + 1 == |t| || IsBlankSpace(t[r + 1]) || IsLineEnd(t[r + 1]))
  }

  lemma StopMeaning(t: Text, r: nat)
    requires r <= |t|
    ensures MatchesFrom(Cat(OneOf([U("."), U(")")]), AfterStop()), t, r) <==> StopAt(t, r)
  {
    assert U(".")[0] == '.' as int && U(")")[0] == ')' as int;
    assert U(".") == ['.' as int] && U(")") == [')' as int];
    forall j: nat
      ensures Matched(Cat(OneOf([U("."), U(")")]), AfterStop()), t, r, j)
         <==> r < |t| && (t[r] == '.' as int || t[r] == ')' as int) && Matched(AfterStop(), t, r + 1, j)
    {
      OneOfTwo('.' as int, ')' as int, AfterStop(), t, r, j);
    }
    if r < |t| {
      AfterStopMeaning(t, r + 1);
      if t[r] == '.' as int || t[r] == ')' as int {
        SameMatches(Cat(OneOf([U("."), U(")")]), AfterStop()), r, AfterStop(), r + 1, t);
      }
    }
  }

  lemma OneOfTwo(a: Unit, b: Unit, rest: Pattern, t: Text, r: nat, j: nat)
    requires !IsLetter(a) && !IsLetter(b)
    ensures Matched(Cat(OneOf([[a], [b]]), rest), t, r, j)
       <==> r < |t| && (t[r] == a || t[r] == b) && Matched(rest, t, r + 1, j)
  {
    var ws := [[a], [b]];
    OneOfThen(ws, rest, t, r, j);
    LetterAt(a, t, r);
    LetterAt(b, t, r);
    assert [a] in ws && [b] in ws;
  }

  lemma AfterStopMeaning(t: Text, i: nat)
    requires i <= |t|
    ensures MatchesFrom(AfterStop(), t, i) <==> i == |t| || IsBlankSpace(t[i]) || IsLineEnd(t[i])
  {
    if MatchesFrom(AfterStop(), t, i) {
      var j: nat :| Matched(AfterStop(), t, i, j);
      assert Matched(Times(Blanks, 1), t, i, j) || Matched(LineFoot, t, i, j);
    }
    if i == |t| || IsBlankSpace(t[i]) || IsLineEnd(t[i]) {
      var j := if i < |t| && IsBlankSpace(t[i]) then i + 1 else i;
      assert Matched(Times(Blanks, 1), t, i, j) || Matched(LineFoot, t, i, j);
      assert Matched(AfterStop(), t, i, j);
    }
  }

  lemma StopsStop(t: Text, j: nat)
    ensures Stops(Cat(OneOf([U("."), U(")")]), AfterStop()), Blanks, t, j)
  {
    forall x: nat | Matched(Cat(OneOf([U("."), U(")")]), AfterStop()), t, x, j)
      ensures x == |t| || !Has(Blanks, t[x])
    {
      StopMeaning(t, x);
    }
  }

  lemma AfterOneMeaning(t: Text, p: nat)
    requires p <= |t|
    ensures MatchesFrom(AfterOne(), t, p) <==> StopAt(t, SkipBlank(t, p))
  {
    forall j: nat ensures Stops(Cat(OneOf([U("."), U(")")]), AfterStop()), Blanks, t, j) {
      StopsStop(t, j);
    }
    BlanksFrom(Cat(OneOf([U("."), U(")")]), AfterStop()), t, p);
    StopMeaning(t, SkipBlank(t, p));
  }

  lemma ParagraphOneMeaning(t: Text, at: nat)
    requires at <= |t|
    ensures ParagraphOneAt(t, at) <==> MatchesFrom(ParagraphOne(), t, at)
  {
    var digit, q := Cat(Lit(U("1")), AfterOne()), SkipBlank(t, at);
    var rest := Cat(Many(Blanks, 0), digit);
    forall j: nat
      ensures Matched(ParagraphOne(), t, at, j)
         <==> (at == 0 || IsLineEnd(t[at - 1])) && Matched(rest, t, at, j)
    {
      AssertionThen(LineHead, rest, t, at, j);
    }
    forall j: nat ensures Stops(digit, Blanks, t, j) {
      LitStops(U("1"), AfterOne(), Blanks, t, j);
    }
    BlanksFrom(digit, t, at);
    DigitOne(t, q);
    if at == 0 || IsLineEnd(t[at - 1]) {
      SameMatches(ParagraphOne(), at, rest, at, t);
    }
  }

  lemma DigitOne(t: Text, q: nat)
    requires q <= |t|
    ensures MatchesFrom(Cat(Lit(U("1")), AfterOne()), t, q)
       <==> q < |t| && t[q] == '1' as int && StopAt(t, SkipBlank(t, q + 1))
  {
    assert U("1")[0] == '1' as int;
    assert U("1") == ['1' as int];
    LetterAt('1' as int, t, q);
    if q < |t| && t[q] == '1' as int {
      forall j: nat
        ensures Matched(Cat(Lit(U("1")), AfterOne()), t, q, j) <==> Matched(AfterOne(), t, q + 1, j)
      {
        LitThen(U("1"), AfterOne(), t, q, j);
      }
      SameMatches(Cat(Lit(U("1")), AfterOne()), q, AfterOne(), q + 1, t);
      AfterOneMeaning(t, q + 1);
    } else {
      forall j: nat ensures !Matched(Cat(Lit(U("1")), AfterOne()), t, q, j) {
        LitThen(U("1"), AfterOne(), t, q, j);
      }
    }
  }

  lemma {:induction false} ParagraphOneFirst(t: Text, at: nat)
    requires at <= |t|
    ensures var s := ParagraphOneFrom(t, at); s.Some? ==> at <= s.value && ParagraphOneAt(t, s.value)
    ensures forall i: nat :: at <= i <= |t| && ParagraphOneAt(t, i) ==>
              ParagraphOneFrom(t, at).Some? && ParagraphOneFrom(t, at).value <= i
    decreases |t| - at
  {
    if !ParagraphOneAt(t, at) && at < |t| {
      ParagraphOneFirst(t, at + 1);
    }
  }

  /** A line that is only VERSUS, VS or V/S starts there, or paragraph 1 does. */
  ghost predicate EndsTitle(t: Text, at: nat) {
    || (IsLineStart(t, at) && IsSeparator(t[at..LineEnd(t, at)]))
    || MatchesFrom(ParagraphOne(), t, at)
  }

  /** There is a cause title, and it goes on past `at`. */
  ghost predicate IsInTitle(t: Text, at: nat) {
    (exists e: nat :: EndsTitle(t, e)) && forall e: nat :: EndsTitle(t, e) ==> at < e
  }

  lemma EndsTitleMeaning(t: Text, at: nat)
    ensures EndsTitle(t, at) <==> at <= |t| && (SeparatorAt(t, at) || ParagraphOneAt(t, at))
  {
    if at <= |t| {
      SeparatorMeaning(t[at..LineEnd(t, at)]);
      ParagraphOneMeaning(t, at);
    }
  }

  lemma TitleMeaning(t: Text, at: nat)
    ensures IsInTitle(t, at) <==> CauseTitleEnd(t).Some? && at < CauseTitleEnd(t).value
  {
    SeparatorFirst(t, 0);
    ParagraphOneFirst(t, 0);
    forall e: nat
      ensures EndsTitle(t, e) <==> e <= |t| && (SeparatorAt(t, e) || ParagraphOneAt(t, e))
    {
      EndsTitleMeaning(t, e);
    }
    var end := CauseTitleEnd(t);
    if end.Some? {
      assert EndsTitle(t, end.value);
    } else {
      assert forall e: nat :: !EndsTitle(t, e);
    }
  }

  // ----- the registry's number ----------------------------------------------------------------------------------

  function OfEdge(): Pattern {
    Cat(Many(Blanks, 0), Cat(Lit(U("of")), Edge))
  }

  function RegistryRun(): Pattern {
    Cat(Many(Blanks, 0), Cat(Many(Lines, 3), OfEdge()))
  }

  /** REGISTRY_NUMBER */
  function Registry(): Pattern {
    Cat(Edge, Cat(Lit(U("no.")), RegistryRun()))
  }

  /** What comes before its group: the underscores. */
  function RegistryHead(): Pattern {
    Cat(Edge, Cat(Lit(U("no.")), Many(Blanks, 0)))
  }

  lemma OfEdgeMeaning(t: Text, e: nat)
    requires e <= |t|
    ensures MatchesFrom(OfEdge(), t, e) <==> OfAt(t, SkipBlank(t, e))
  {
    var s := SkipBlank(t, e);
    forall j: nat ensures Stops(Cat(Lit(U("of")), Edge), Blanks, t, j) {
      LitStops(U("of"), Edge, Blanks, t, j);
    }
    BlanksFrom(Cat(Lit(U("of")), Edge), t, e);
    forall j: nat
      ensures Matched(Cat(Lit(U("of")), Edge), t, s, j) <==> WordAt(t, s, U("of")) && j == s + 2 && WordBoundary(t, j)
    {
      LitEdge(U("of"), t, s, j);
    }
    if OfAt(t, s) {
      assert Matched(Cat(Lit(U("of")), Edge), t, s, s + 2);
    }
  }

  predicate OfAt(t: Text, s: nat) {
    WordAt(t, s, U("of")) && WordBoundary(t, s + 2)
  }

  lemma OfEdgeStops(t: Text, j: nat)
    ensures Stops(OfEdge(), Lines, t, j)
  {
    forall x: nat | Matched(OfEdge(), t, x, j) ensures x == |t| || !Has(Lines, t[x]) {
      OfEdgeMeaning(t, x);
      if x < |t| {
        OfIsNoUnderscore(t, x);
      }
    }
  }

  lemma OfIsNoUnderscore(t: Text, x: nat)
    requires x < |t|
    ensures t[x] == UNDERSCORE ==> SkipBlank(t, x) == x && !OfAt(t, x)
  {
    if t[x] == UNDERSCORE {
      assert U("of")[0] == 'o' as int && Lower(t[x + 0]) == UNDERSCORE;
    }
  }

  lemma RegistryRunMeaning(t: Text, p: nat)
    requires p <= |t|
    ensures var q := SkipBlank(t, p);
      MatchesFrom(RegistryRun(), t, p) <==> RunEnd(t, q) >= q + 3 && OfAt(t, SkipBlank(t, RunEnd(t, q)))
  {
    var q := SkipBlank(t, p);
    var e := RunEnd(t, q);
    RunEndWhole(t, q);
    forall j: nat ensures Stops(Cat(Many(Lines, 3), OfEdge()), Blanks, t, j) {
      ManyStops(Lines, 3, OfEdge(), Blanks, t, j);
    }
    BlanksFrom(Cat(Many(Lines, 3), OfEdge()), t, p);
    forall j: nat
      ensures Matched(Cat(Many(Lines, 3), OfEdge()), t, q, j) <==> q + 3 <= e && Matched(OfEdge(), t, e, j)
    {
      OfEdgeStops(t, j);
      ManyThen(Lines, 3, OfEdge(), t, q, e, j);
    }
    if q + 3 <= e {
      SameMatches(Cat(Many(Lines, 3), OfEdge()), q, OfEdge(), e, t);
    }
    OfEdgeMeaning(t, e);
  }

  lemma RegistryMeaning(t: Text, at: nat)
    requires at <= |t|
    ensures MatchesFrom(Registry(), t, at) <==> RegistryAt(t, at).Some?
  {
    forall j: nat
      ensures Matched(Registry(), t, at, j)
         <==> WordBoundary(t, at) && WordAt(t, at, U("no.")) && Matched(RegistryRun(), t, at + 3, j)
    {
      EdgeLit(U("no."), RegistryRun(), t, at, j);
    }
    if WordBoundary(t, at) && WordAt(t, at, U("no.")) {
      SameMatches(Registry(), at, RegistryRun(), at + 3, t);
      RegistryRunMeaning(t, at + 3);
    }
  }

  /** The group of a match is the run of underscores after its head. */
  lemma RegistryGroup(t: Text, at: nat, s: Span)
    requires at <= |t| && RegistryAt(t, at).Some?
    ensures RegistryAt(t, at) == Some(s) <==> IsRun(t, s) && Matched(RegistryHead(), t, at, s.start)
  {
    EdgeLit(U("no."), Many(Blanks, 0), t, at, s.start);
    SkipBlankWhole(t, at + 3);
    if IsRun(t, s) && Matched(RegistryHead(), t, at, s.start) {
      assert Matched(Many(Blanks, 0), t, at + 3, s.start);
      BlankReaches(t, at + 3, s.start);
      assert t[s.start] == UNDERSCORE;
      RunIsFound(t, s);
    }
  }

  lemma RegistryFirst(t: Text, at: nat)
    requires at <= |t|
    ensures var r := FirstRegistry(t, at);
      r.Some? ==> at <= r.value.0 <= |t| && RegistryAt(t, r.value.0) == Some(r.value.1)
    ensures forall i: nat :: at <= i <= |t| && RegistryAt(t, i).Some? ==>
              FirstRegistry(t, at).Some? && FirstRegistry(t, at).value.0 <= i
  {
    RegistryThere(t, at);
    forall i: nat | at <= i <= |t| && RegistryAt(t, i).Some?
      ensures FirstRegistry(t, at).Some? && FirstRegistry(t, at).value.0 <= i
    {
      RegistryNotAfter(t, at, i);
    }
  }

  lemma {:induction false} RegistryThere(t: Text, at: nat)
    requires at <= |t|
    ensures var r := FirstRegistry(t, at);
      r.Some? ==> at <= r.value.0 <= |t| && RegistryAt(t, r.value.0) == Some(r.value.1)
    decreases |t| - at
  {
    if RegistryAt(t, at).None? && at < |t| {
      RegistryThere(t, at + 1);
    }
  }

  lemma {:induction false} RegistryNotAfter(t: Text, at: nat, i: nat)
    requires at <= i <= |t| && RegistryAt(t, i).Some?
    ensures FirstRegistry(t, at).Some? && FirstRegistry(t, at).value.0 <= i
    decreases i - at
  {
    if RegistryAt(t, at).None? {
      assert at != i;
      RegistryNotAfter(t, at + 1, i);
    }
  }

  function InWord(): Pattern {
    Cat(Edge, Cat(Lit(U("in")), Edge))
  }

  function OutOf(): Pattern {
    Cat(Many(Blanks, 1), Cat(Lit(U("out")), Cat(Many(Blanks, 1), Cat(Lit(U("of")), Edge))))
  }

  function ArisingOutOf(): Pattern {
    Cat(Edge, Cat(Lit(U("arising")), OutOf()))
  }

  /** NOT_REGISTRY_BEFORE */
  function NotRegistryBefore(): Pattern {
    Either(InWord(), ArisingOutOf())
  }

  lemma OutOfMeaning(t: Text, i: nat, j: nat)
    requires i <= |t|
    ensures Matched(OutOf(), t, i, j)
       <==> var q := SkipBlank(t, i);
         q > i && WordAt(t, q, U("out"))
         && var r := SkipBlank(t, q + 3);
           r > q + 3 && WordAt(t, r, U("of")) && WordBoundary(t, r + 2) && j == r + 2
  {
    var q := SkipBlank(t, i);
    var end := Cat(Many(Blanks, 1), Cat(Lit(U("of")), Edge));
    SkipBlankWhole(t, i);
    ToWord(Blanks, 1, U("out"), end, t, i, q, j);
    if WordAt(t, q, U("out")) {
      var r := SkipBlank(t, q + 3);
      SkipBlankWhole(t, q + 3);
      ToWord(Blanks, 1, U("of"), Edge, t, q + 3, r, j);
    }
  }

  lemma NamesCaseMeaning(t: Text, i: nat)
    requires i <= |t|
    ensures MatchesFrom(NotRegistryBefore(), t, i) <==> NamesCaseAt(t, i)
  {
    InWordMeaning(t, i);
    ArisingMeaning(t, i);
    if MatchesFrom(NotRegistryBefore(), t, i) {
      var j: nat :| Matched(NotRegistryBefore(), t, i, j);
      assert Matched(InWord(), t, i, j) || Matched(ArisingOutOf(), t, i, j);
    }
    if MatchesFrom(InWord(), t, i) {
      var j: nat :| Matched(InWord(), t, i, j);
      assert Matched(NotRegistryBefore(), t, i, j);
    }
    if MatchesFrom(ArisingOutOf(), t, i) {
      var j: nat :| Matched(ArisingOutOf(), t, i, j);
      assert Matched(NotRegistryBefore(), t, i, j);
    }
  }

  lemma InWordMeaning(t: Text, i: nat)
    requires i <= |t|
    ensures MatchesFrom(InWord(), t, i) <==> WordBoundary(t, i) && WordAt(t, i, U("in")) && WordBoundary(t, i + 2)
  {
    forall j: nat
      ensures Matched(InWord(), t, i, j)
         <==> WordBoundary(t, i) && WordAt(t, i, U("in")) && j == i + 2 && WordBoundary(t, j)
    {
      EdgeLit(U("in"), Edge, t, i, j);
    }
    if WordBoundary(t, i) && WordAt(t, i, U("in")) && WordBoundary(t, i + 2) {
      assert Matched(InWord(), t, i, i + 2);
    }
  }

  lemma ArisingMeaning(t: Text, i: nat)
    requires i <= |t|
    ensures MatchesFrom(ArisingOutOf(), t, i)
       <==> WordBoundary(t, i) && WordAt(t, i, U("arising")) && IsOutOf(t, i + 7)
  {
    forall j: nat
      ensures Matched(ArisingOutOf(), t, i, j)
         <==> WordBoundary(t, i) && WordAt(t, i, U("arising")) && Matched(OutOf(), t, i + 7, j)
    {
      EdgeLit(U("arising"), OutOf(), t, i, j);
    }
    if WordBoundary(t, i) && WordAt(t, i, U("arising")) {
      SameMatches(ArisingOutOf(), i, OutOf(), i + 7, t);
      OutOfFrom(t, i + 7);
    }
  }

  lemma OutOfFrom(t: Text, i: nat)
    requires i <= |t|
    ensures MatchesFrom(OutOf(), t, i) <==> IsOutOf(t, i)
  {
    if MatchesFrom(OutOf(), t, i) {
      var j: nat :| Matched(OutOf(), t, i, j);
      OutOfMeaning(t, i, j);
    }
    if IsOutOf(t, i) {
      OutOfMeaning(t, i, SkipBlank(t, SkipBlank(t, i) + 3) + 2);
    }
  }

  lemma NamesAnotherMeaning(before: Text)
    ensures NamesAnotherCase(before) <==> FoundIn(NotRegistryBefore(), before)
  {
    forall i: nat
      ensures MatchesFrom(NotRegistryBefore(), before, i) <==> i < |before| && NamesCaseAt(before, i)
    {
      if i <= |before| {
        NamesCaseMeaning(before, i);
      }
    }
    if NamesAnotherCase(before) {
      var i :| 0 <= i < |before| && NamesCaseAt(before, i);
      assert MatchesFrom(NotRegistryBefore(), before, i);
    }
  }

  // ----- the theorems ------------------------------------------------------------------------------------------

  /** The first "No. ___ of" of the text starts at `at`. */
  ghost predicate IsFirstRegistry(t: Text, at: nat) {
    MatchesFrom(Registry(), t, at) && forall i: nat :: MatchesFrom(Registry(), t, i) ==> at <= i
  }

  /** A run of underscores is the registry's own number. */
  ghost predicate IsRegistryNumber(t: Text, at: nat, s: Span) {
    && at <= |t| && IsFirstRegistry(t, at) && IsRun(t, s) && Matched(RegistryHead(), t, at, s.start)
    && IsInTitle(t, at) && !FoundIn(NotRegistryBefore(), t[LineStart(t, at)..at])
  }

  lemma FirstIsFirst(t: Text, at: nat)
    ensures IsFirstRegistry(t, at) <==> FirstRegistry(t, 0).Some? && FirstRegistry(t, 0).value.0 == at
  {
    RegistryFirst(t, 0);
    forall i: nat ensures MatchesFrom(Registry(), t, i) <==> i <= |t| && RegistryAt(t, i).Some? {
      if i <= |t| {
        RegistryMeaning(t, i);
      }
    }
    if FirstRegistry(t, 0).Some? {
      assert MatchesFrom(Registry(), t, FirstRegistry(t, 0).value.0);
    }
  }

  /**
   * The registry's number is the underscores of the first "No. ___ of" of the text, when that stands
   * before the end of the cause title and neither "in" nor "arising out of" comes before it on its line.
   */
  lemma RegistryNumberMeaning(t: Text, s: Span)
    ensures RegistryNumber(t) == Some(s) <==> exists at: nat :: IsRegistryNumber(t, at, s)
  {
    var first := FirstRegistry(t, 0);
    RegistryFirst(t, 0);
    if at: nat :| IsRegistryNumber(t, at, s) {
      NumberIsFirst(t, at, s);
    }
    if RegistryNumber(t) == Some(s) {
      NumberIsFirst(t, first.value.0, s);
    }
  }

  lemma NumberIsFirst(t: Text, at: nat, s: Span)
    requires at <= |t|
    ensures IsRegistryNumber(t, at, s)
       <==> FirstRegistry(t, 0) == Some((at, s)) && RegistryNumber(t) == Some(s)
  {
    FirstIsFirst(t, at);
    RegistryFirst(t, 0);
    if IsFirstRegistry(t, at) {
      RegistryGroup(t, at, s);
      TitleMeaning(t, at);
      NamesAnotherMeaning(t[LineStart(t, at)..at]);
    }
  }

  /** A run stands on a signature line when its line is blank space, underscores, and more of both. */
  lemma OnSignatureMeaning(t: Text, r: Span)
    requires IsRun(t, r)
    ensures IsLineOf(t, r.start, LineStart(t, r.start), LineEnd(t, r.end))
    ensures OnSignatureLine(t, r) <==> FoundIn(SignatureLine(), t[LineStart(t, r.start)..LineEnd(t, r.end)])
  {
    var a, b := LineStart(t, r.start), LineEnd(t, r.end);
    LineStartMeaning(t, r.start);
    assert t[a..b] == t[a..r.start] + t[r.start..r.end] + t[r.end..b];
    SignatureLineMeaning(t[a..b]);
  }
}
