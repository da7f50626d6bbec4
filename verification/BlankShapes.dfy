/**
 * The expressions that findBlanks runs over the whole text (packages/shared/src/blanks.ts), and what its
 * scans find: the longest matches of those expressions, leftmost first.
 */
module BlankShapes {
  import opened BlankFinder
  import opened Options
  import opened Patterns
  import opened Spans
  import opened Units

  // ----- the expressions -----------------------------------------------------------------------------------

  function Confirm(): Pattern {
    Cat(Lit(U("[to be confirmed:")), Cat(Many(NotBracket, 0), Lit(U("]"))))
  }

  function Missing(): Pattern {
    Cat(Lit(U("{{")), MissingWord())
  }

  function MissingWord(): Pattern {
    Cat(Many(Spaces, 0), Cat(Lit(U("missing")), MissingLabel()))
  }

  function MissingLabel(): Pattern {
    Cat(Many(Spaces, 0), Cat(Lit(U(":")), Cat(Many(NotBrace, 0), Lit(U("}}")))))
  }

  const SECTION_MARKER: Text := U("[section ") + [0x2014] + U(" verify before filing]")
  const AUTHORITY_MARKER: Text := U("[authority ") + [0x2014] + U(" add if relied upon]")

  /** MARKER */
  function MarkerPattern(): Pattern {
    Either(Confirm(), Either(Missing(), OneOf([SECTION_MARKER, AUTHORITY_MARKER])))
  }

  // ----- markers ---------------------------------------------------------------------------------------------

  lemma ConfirmMeaning(t: Text, at: nat, e: nat)
    requires at <= |t|
    ensures Matched(Confirm(), t, at, e) <==> ConfirmEnd(t, at) == Some(e)
  {
    var head, foot := U("[to be confirmed:"), U("]");
    LitThen(head, Cat(Many(NotBracket, 0), Lit(foot)), t, at, e);
    if WordAt(t, at, head) {
      var from := at + |head|;
      ToClose(']' as int, NotBracket, foot, t, from, e);
    }
  }

  /** A label goes on to the first unit that closes it. */
  lemma ToClose(c: Unit, k: Chars, foot: Text, t: Text, from: nat, e: nat)
    requires from <= |t| && foot != [] && foot[0] == c == Lower(c) && (forall u: Unit :: Has(k, u) <==> u != c)
    requires forall u: Unit :: Lower(u) == c ==> u == c
    ensures var close := IndexOf(t, c, from);
      Matched(Cat(Many(k, 0), Lit(foot)), t, from, e)
      <==> close.Some? && WordAt(t, close.value, foot) && e == close.value + |foot|
  {
    var close := IndexOf(t, c, from);
    LitStops(foot, Lit([]), k, t, e);
    ManyThen(k, 0, Lit(foot), t, from, if close.Some? then close.value else |t|, e);
  }

  /** Expressions that go on with a literal, after any number of units of a class. */
  lemma ToWord(k: Chars, least: nat, w: Text, r: Pattern, t: Text, i: nat, m: nat, e: nat)
    requires IsWhole(k, t, i, m) && w != [] && forall c: Unit :: Has(k, c) ==> Lower(c) != w[0]
    ensures Matched(Cat(Many(k, least), Cat(Lit(w), r)), t, i, e)
       <==> i + least <= m && WordAt(t, m, w) && Matched(r, t, m + |w|, e)
  {
    LitStops(w, r, k, t, e);
    ManyThen(k, least, Cat(Lit(w), r), t, i, m, e);
    LitThen(w, r, t, m, e);
  }

  lemma MissingMeaning(t: Text, at: nat, e: nat)
    requires at <= |t|
    ensures Matched(Missing(), t, at, e) <==> MissingEnd(t, at) == Some(e)
  {
    LitThen(U("{{"), MissingWord(), t, at, e);
    if WordAt(t, at, U("{{")) {
      MissingWordMeaning(t, at + 2, e);
    }
  }

  lemma MissingWordMeaning(t: Text, at: nat, e: nat)
    requires at <= |t|
    ensures var word := SkipSpace(t, at);
      Matched(MissingWord(), t, at, e) <==> WordAt(t, word, U("missing")) && EndsLabel(t, word + 7, e)
  {
    var word := SkipSpace(t, at);
    SkipSpaceWhole(t, at);
    ToWord(Spaces, 0, U("missing"), MissingLabel(), t, at, word, e);
    if WordAt(t, word, U("missing")) {
      MissingLabelMeaning(t, word + 7, e);
    }
  }

  /** The label from its colon on ends at e. */
  predicate EndsLabel(t: Text, at: nat, e: nat)
    requires at <= |t|
  {
    var colon := SkipSpace(t, at);
    WordAt(t, colon, U(":"))
    && var close := IndexOf(t, '}' as int, colon + 1);
      close.Some? && close.value + 1 < |t| && t[close.value + 1] == '}' as int && e == close.value + 2
  }

  lemma MissingLabelMeaning(t: Text, at: nat, e: nat)
    requires at <= |t|
    ensures Matched(MissingLabel(), t, at, e) <==> EndsLabel(t, at, e)
  {
    var colon := SkipSpace(t, at);
    SkipSpaceWhole(t, at);
    ToWord(Spaces, 0, U(":"), Cat(Many(NotBrace, 0), Lit(U("}}"))), t, at, colon, e);
    if WordAt(t, colon, U(":")) {
      ToClose('}' as int, NotBrace, U("}}"), t, colon + 1, e);
      BracesAt(t, IndexOf(t, '}' as int, colon + 1));
    }
  }

  lemma BracesAt(t: Text, close: Option<nat>)
    requires close.Some? ==> close.value < |t| && t[close.value] == '}' as int
    ensures close.Some? ==> (WordAt(t, close.value, U("}}"))
                             <==> close.value + 1 < |t| && t[close.value + 1] == '}' as int)
  {
    if close.Some? && WordAt(t, close.value, U("}}")) {
      assert Lower(t[close.value + 1]) == U("}}")[1];
    }
  }

  /** A marker has one end: that of the expression's only match there. */
  lemma MarkerMeaning(t: Text, at: nat, e: nat)
    requires at <= |t|
    ensures Matched(MarkerPattern(), t, at, e) <==> MarkerEnd(t, at) == Some(e)
  {
    ConfirmMeaning(t, at, e);
    MissingMeaning(t, at, e);
    NoticesApart(t, at);
    NoticeMeaning(t, at, e);
  }

  /** No two of the four shapes start at one place. */
  lemma NoticesApart(t: Text, at: nat)
    requires at <= |t|
    ensures ConfirmEnd(t, at).Some? ==>
              MissingEnd(t, at).None? && !WordAt(t, at, SECTION_MARKER) && !WordAt(t, at, AUTHORITY_MARKER)
    ensures MissingEnd(t, at).Some? ==> !WordAt(t, at, SECTION_MARKER) && !WordAt(t, at, AUTHORITY_MARKER)
    ensures WordAt(t, at, SECTION_MARKER) ==> !WordAt(t, at, AUTHORITY_MARKER)
  {
    assert SECTION_MARKER[0] == AUTHORITY_MARKER[0] == '[' as int;
    assert SECTION_MARKER[1] == 's' as int && AUTHORITY_MARKER[1] == 'a' as int;
    var head := U("[to be confirmed:");
    if WordAt(t, at, head) {
      assert Lower(t[at + 1]) == head[1] == 't' as int;
    }
  }

  lemma NoticeMeaning(t: Text, at: nat, e: nat)
    ensures Matched(OneOf([SECTION_MARKER, AUTHORITY_MARKER]), t, at, e)
       <==> (WordAt(t, at, SECTION_MARKER) && e == at + |SECTION_MARKER|)
            || (WordAt(t, at, AUTHORITY_MARKER) && e == at + |AUTHORITY_MARKER|)
  {
    assert SECTION_MARKER in [SECTION_MARKER, AUTHORITY_MARKER];
    assert AUTHORITY_MARKER in [SECTION_MARKER, AUTHORITY_MARKER];
  }

  // ----- day-of dates ------------------------------------------------------------------------------------------

  function YearDigits(): Pattern {
    Either(Cat(Lit(U("20")), Many(Lines, 2)), Either(Many(Lines, 3), Times(Digits, 4)))
  }

  function Year(): Pattern {
    Cat(Many(Blanks, 0), YearAfterBlank())
  }

  function YearAfterBlank(): Pattern {
    Cat(Opt(Lit(U(","))), YearAfterComma())
  }

  function YearAfterComma(): Pattern {
    Cat(Many(Blanks, 0), YearDigits())
  }

  function Month(): Pattern {
    Cat(Many(Lines, 3), Opt(Year()))
  }

  function DayOf(): Pattern {
    Cat(Many(Blanks, 1), Cat(Lit(U("day")), OfMonth()))
  }

  function OfMonth(): Pattern {
    Cat(Many(Blanks, 1), Cat(Lit(U("of")), MonthAfterBlank()))
  }

  function MonthAfterBlank(): Pattern {
    Cat(Many(Blanks, 1), Month())
  }

  const DAY_SUFFIXES: seq<Text> := [U("st"), U("nd"), U("rd"), U("th")]

  function AfterDay(): Pattern {
    Cat(Many(Blanks, 0), AfterDayBlank())
  }

  function AfterDayBlank(): Pattern {
    Cat(Opt(OneOf(DAY_SUFFIXES)), DayOf())
  }

  /** DAY_OF_DATE */
  function DatePattern(): Pattern {
    Cat(Many(Lines, 3), AfterDay())
  }

  lemma YearDigitsMeaning(t: Text, at: nat)
    requires at <= |t|
    ensures if YearEnd(t, at).Some? then Longest(YearDigits(), t, at, YearEnd(t, at).value)
            else forall e: nat :: !Matched(YearDigits(), t, at, e)
  {
    forall e: nat | Matched(YearDigits(), t, at, e) ensures YearEnd(t, at).Some? && e <= YearEnd(t, at).value {
      YearDigitsEnd(t, at, e);
    }
    if YearEnd(t, at).Some? {
      YearDigitsThere(t, at);
    }
  }

  lemma YearDigitsThere(t: Text, at: nat)
    requires at <= |t| && YearEnd(t, at).Some?
    ensures Matched(YearDigits(), t, at, YearEnd(t, at).value)
  {
    LitThen(U("20"), Many(Lines, 2), t, at, YearEnd(t, at).value);
  }

  lemma YearDigitsEnd(t: Text, at: nat, e: nat)
    requires at <= |t| && Matched(YearDigits(), t, at, e)
    ensures YearEnd(t, at).Some? && e <= YearEnd(t, at).value
    ensures at < |t| && (t[at] == UNDERSCORE ==> e <= RunEnd(t, at)) && !IsBlankSpace(t[at]) && t[at] != ',' as int
  {
    assert Matched(Cat(Lit(U("20")), Many(Lines, 2)), t, at, e)
        || Matched(Many(Lines, 3), t, at, e) || Matched(Times(Digits, 4), t, at, e);
    LitThen(U("20"), Many(Lines, 2), t, at, e);
    if WordAt(t, at, U("20")) {
      assert Lower(t[at + 0]) == U("20")[0] == '2' as int;
      assert RunEnd(t, at) == at;
    }
    RunReaches(t, at, e);
    if at + 2 <= e {
      RunReaches(t, at + 2, e);
    }
  }

  /** Underscores from i to e are part of the run there. */
  lemma RunReaches(t: Text, i: nat, e: nat)
    requires i <= e <= |t|
    ensures (forall x :: i <= x < e ==> t[x] == UNDERSCORE) ==> e <= RunEnd(t, i)
  {
  }

  lemma YearMeaning(t: Text, at: nat, e: nat)
    requires at <= |t|
    ensures Matched(Year(), t, at, e) <==> Matched(YearDigits(), t, YearAt(t, at), e)
  {
    YearDigitsStop(t, e);
    CommaThen(YearDigits(), t, at, e);
  }

  /** The expression matches after the blank space there, or after a comma there and blank space. */
  ghost predicate PastComma(r: Pattern, t: Text, m: nat, e: nat)
    requires m <= |t|
  {
    || (m < |t| && t[m] == ',' as int && Matched(r, t, SkipBlank(t, m + 1), e))
    || Matched(r, t, SkipBlank(t, m), e)
  }

  /** Blank space, a comma or none, and blank space: what follows starts after all of it. */
  lemma CommaThen(r: Pattern, t: Text, at: nat, e: nat)
    requires at <= |t| && Stops(r, Blanks, t, e)
    requires forall x: nat :: Matched(r, t, x, e) && x < |t| ==> t[x] != ',' as int
    ensures Matched(Cat(Many(Blanks, 0), Cat(Opt(Lit(U(","))), Cat(Many(Blanks, 0), r))), t, at, e)
       <==> Matched(r, t, YearAt(t, at), e)
  {
    var s := SkipBlank(t, at);
    var rest := Cat(Opt(Lit(U(","))), Cat(Many(Blanks, 0), r));
    forall m: nat | m <= |t|
      ensures Matched(rest, t, m, e) <==> PastComma(r, t, m, e)
    {
      CommaFrom(r, t, m, e);
    }
    SkipToComma(rest, r, t, at, e);
  }

  lemma SkipToComma(rest: Pattern, r: Pattern, t: Text, at: nat, e: nat)
    requires at <= |t| && forall x: nat :: Matched(r, t, x, e) && x < |t| ==> t[x] != ',' as int
    requires forall m: nat :: m <= |t| ==> (Matched(rest, t, m, e) <==> PastComma(r, t, m, e))
    ensures Matched(Cat(Many(Blanks, 0), rest), t, at, e) <==> Matched(r, t, YearAt(t, at), e)
  {
    if Matched(Cat(Many(Blanks, 0), rest), t, at, e) {
      var m := Parts(Many(Blanks, 0), rest, t, at, e);
      BlankReaches(t, at, m);
      PastCommaIsYear(r, t, at, m, e);
    }
    if Matched(r, t, YearAt(t, at), e) {
      YearIsPastComma(r, t, at, e);
      SkipBlankWhole(t, at);
      assert Matched(Many(Blanks, 0), t, at, SkipBlank(t, at));
    }
  }

  lemma PastCommaIsYear(r: Pattern, t: Text, at: nat, m: nat, e: nat)
    requires at <= m <= |t| && SkipBlank(t, at) == SkipBlank(t, m) && PastComma(r, t, m, e)
    requires forall x: nat :: Matched(r, t, x, e) && x < |t| ==> t[x] != ',' as int
    ensures Matched(r, t, YearAt(t, at), e)
  {
    var s := SkipBlank(t, m);
    assert SkipBlank(t, s) == s;
  }

  lemma YearIsPastComma(r: Pattern, t: Text, at: nat, e: nat)
    requires at <= |t| && Matched(r, t, YearAt(t, at), e)
    ensures PastComma(r, t, SkipBlank(t, at), e)
  {
    var s := SkipBlank(t, at);
    if s < |t| && t[s] == ',' as int {
      assert YearAt(t, at) == SkipBlank(t, s + 1);
    } else {
      assert YearAt(t, at) == SkipBlank(t, s);
    }
  }

  /** A skip over blank space goes on from any place inside it. */
  lemma {:induction false} BlankReaches(t: Text, i: nat, m: nat)
    requires i <= m <= |t| && forall x :: i <= x < m ==> IsBlankSpace(t[x])
    ensures SkipBlank(t, i) == SkipBlank(t, m)
    decreases m - i
  {
    if i < m {
      BlankReaches(t, i + 1, m);
    }
  }

  lemma BlanksThen(r: Pattern, t: Text, m: nat, e: nat)
    requires m <= |t| && Stops(r, Blanks, t, e)
    ensures Matched(Cat(Many(Blanks, 0), r), t, m, e) <==> Matched(r, t, SkipBlank(t, m), e)
  {
    SkipBlankWhole(t, m);
    ManyThen(Blanks, 0, r, t, m, SkipBlank(t, m), e);
  }

  lemma CommaFrom(r: Pattern, t: Text, m: nat, e: nat)
    requires m <= |t| && Stops(r, Blanks, t, e)
    ensures Matched(Cat(Opt(Lit(U(","))), Cat(Many(Blanks, 0), r)), t, m, e) <==> PastComma(r, t, m, e)
  {
    OptLitThen(U(","), Cat(Many(Blanks, 0), r), t, m, e);
    CommaAt(t, m);
    BlanksThen(r, t, m, e);
    if m < |t| {
      BlanksThen(r, t, m + 1, e);
    }
  }

  lemma OptLitThen(w: Text, r: Pattern, t: Text, m: nat, e: nat)
    ensures Matched(Cat(Opt(Lit(w)), r), t, m, e)
       <==> (WordAt(t, m, w) && Matched(r, t, m + |w|, e)) || Matched(r, t, m, e)
  {
    OptThen(Lit(w), r, t, m, e);
    LitThen(w, r, t, m, e);
  }

  lemma CommaAt(t: Text, m: nat)
    ensures WordAt(t, m, U(",")) <==> m < |t| && t[m] == ',' as int
  {
    if WordAt(t, m, U(",")) {
      assert Lower(t[m + 0]) == U(",")[0];
    }
  }

  lemma YearDigitsStop(t: Text, e: nat)
    ensures Stops(YearDigits(), Blanks, t, e)
    ensures forall x: nat :: Matched(YearDigits(), t, x, e) && x < |t| ==> t[x] != ',' as int
  {
    forall x: nat | Matched(YearDigits(), t, x, e) ensures x < |t| && !Has(Blanks, t[x]) && t[x] != ',' as int {
      YearDigitsEnd(t, x, e);
    }
  }

  lemma MonthReaches(t: Text, m: nat, e: nat)
    requires m <= |t| && Matched(Month(), t, m, e)
    ensures MonthEnd(t, m).Some? && e <= MonthEnd(t, m).value
  {
    var monthEnd := RunEnd(t, m);
    var k := Parts(Many(Lines, 3), Opt(Year()), t, m, e);
    RunReaches(t, m, k);
    if e != k {
      assert Matched(Year(), t, k, e) || Matched(Lit([]), t, k, e);
      YearMeaning(t, k, e);
      if k == monthEnd {
        YearDigitsMeaning(t, YearAt(t, k));
      } else {
        YearDigitsEnd(t, k, e);
        RunReaches(t, m, e);
      }
    }
    YearComes(t, monthEnd);
  }

  lemma YearComes(t: Text, monthEnd: nat)
    requires monthEnd <= |t|
    ensures var y := YearEnd(t, YearAt(t, monthEnd));
      y.Some? ==> monthEnd < y.value && Matched(Year(), t, monthEnd, y.value)
  {
    var y := YearEnd(t, YearAt(t, monthEnd));
    if y.Some? {
      YearDigitsThere(t, YearAt(t, monthEnd));
      YearMeaning(t, monthEnd, y.value);
    }
  }

  lemma MonthThere(t: Text, m: nat)
    requires m <= |t| && MonthEnd(t, m).Some?
    ensures Matched(Month(), t, m, MonthEnd(t, m).value)
  {
    var monthEnd, e := RunEnd(t, m), MonthEnd(t, m).value;
    YearComes(t, monthEnd);
    assert Matched(Many(Lines, 3), t, m, monthEnd);
    assert e == monthEnd ==> Matched(Lit([]), t, monthEnd, e);
    assert Matched(Opt(Year()), t, monthEnd, e);
  }

  lemma OfMonthMeaning(t: Text, x: nat, e: nat)
    requires x <= |t|
    ensures Matched(OfMonth(), t, x, e)
       <==> MonthAfterOf(t, x).Some? && Matched(Month(), t, MonthAfterOf(t, x).value, e)
  {
    var of := SkipBlank(t, x);
    SkipBlankWhole(t, x);
    ToWord(Blanks, 1, U("of"), MonthAfterBlank(), t, x, of, e);
    if WordAt(t, of, U("of")) {
      SkipBlankWhole(t, of + 2);
      ManyStops(Lines, 3, Opt(Year()), Blanks, t, e);
      ManyThen(Blanks, 1, Month(), t, of + 2, SkipBlank(t, of + 2), e);
    }
  }

  lemma DayOfMeaning(t: Text, x: nat, e: nat)
    requires x <= |t|
    ensures Matched(DayOf(), t, x, e) <==> MonthAt(t, x).Some? && Matched(Month(), t, MonthAt(t, x).value, e)
  {
    var day := SkipBlank(t, x);
    DayOfSteps(OfMonth(), t, x, e);
    if WordAt(t, day, U("day")) {
      OfMonthMeaning(t, day + 3, e);
    }
  }

  lemma DayOfSteps(r: Pattern, t: Text, x: nat, e: nat)
    requires x <= |t|
    ensures Matched(Cat(Many(Blanks, 1), Cat(Lit(U("day")), r)), t, x, e)
       <==> var day := SkipBlank(t, x); x < day && WordAt(t, day, U("day")) && Matched(r, t, day + 3, e)
  {
    SkipBlankWhole(t, x);
    ToWord(Blanks, 1, U("day"), r, t, x, SkipBlank(t, x), e);
  }

  lemma AfterDayMeaning(t: Text, r: nat, e: nat)
    requires r <= |t|
    ensures Matched(AfterDay(), t, r, e) <==> Matched(DayOf(), t, DayAt(t, r), e)
  {
    var q := SkipBlank(t, r);
    if Matched(AfterDay(), t, r, e) {
      var m := Parts(Many(Blanks, 0), AfterDayBlank(), t, r, e);
      BlankReaches(t, r, m);
      SuffixFrom(t, m, e);
      if Matched(DayOf(), t, m, e) {
        DayUnsuffixed(t, r, m, e);
      }
    }
    if Matched(DayOf(), t, DayAt(t, r), e) {
      SuffixFrom(t, q, e);
      SuffixFrom(t, r, e);
      assert Matched(Many(Blanks, 0), t, r, q) && Matched(Many(Blanks, 0), t, r, r);
    }
  }

  /** One of some words of two letters and what follows it, or what follows at once. */
  lemma PairThen(ws: seq<Text>, r: Pattern, t: Text, m: nat, e: nat)
    requires forall w :: w in ws ==> |w| == 2
    ensures Matched(Cat(Opt(OneOf(ws)), r), t, m, e)
       <==> ((exists w :: w in ws && WordAt(t, m, w)) && Matched(r, t, m + 2, e)) || Matched(r, t, m, e)
  {
    OptThen(OneOf(ws), r, t, m, e);
    OneOfThen(ws, r, t, m, e);
  }

  lemma SuffixesAre()
    ensures SUFFIXES == DAY_SUFFIXES && forall w :: w in DAY_SUFFIXES ==> |w| == 2
  {
  }

  lemma SuffixThen(r: Pattern, t: Text, m: nat, e: nat)
    ensures Matched(Cat(Opt(OneOf(DAY_SUFFIXES)), r), t, m, e)
       <==> (IsSuffixed(t, m) && Matched(r, t, m + 2, e)) || Matched(r, t, m, e)
  {
    SuffixesAre();
    PairThen(DAY_SUFFIXES, r, t, m, e);
  }

  lemma SuffixFrom(t: Text, m: nat, e: nat)
    requires m <= |t|
    ensures Matched(AfterDayBlank(), t, m, e)
       <==> (IsSuffixed(t, m) && Matched(DayOf(), t, m + 2, e)) || Matched(DayOf(), t, m, e)
    ensures IsSuffixed(t, m) ==> SkipBlank(t, m) == m
  {
    SuffixThen(DayOf(), t, m, e);
    if w :| w in SUFFIXES && WordAt(t, m, w) {
      SuffixIsNoDay(t, m, w);
    }
  }

  /** A suffix is a letter other than the one "day" starts with. */
  lemma SuffixIsNoDay(t: Text, m: nat, w: Text)
    requires w in SUFFIXES && WordAt(t, m, w)
    ensures !IsBlankSpace(t[m]) && !WordAt(t, m, U("day"))
  {
    assert U("st")[0] == 's' as int && U("nd")[0] == 'n' as int && U("rd")[0] == 'r' as int && U("th")[0] == 't' as int;
    assert Lower(t[m + 0]) == w[0];
    assert U("day")[0] == 'd' as int;
  }

  /** Without a suffix, the blank space before "day" starts where the run ends. */
  lemma DayUnsuffixed(t: Text, r: nat, m: nat, e: nat)
    requires r <= m <= |t| && SkipBlank(t, r) == SkipBlank(t, m) && Matched(DayOf(), t, m, e)
    ensures DayAt(t, r) == r && Matched(DayOf(), t, r, e)
  {
    DayOfMeaning(t, m, e);
    DayOfMeaning(t, r, e);
    if w :| w in SUFFIXES && WordAt(t, SkipBlank(t, r), w) {
      SuffixIsNoDay(t, SkipBlank(t, r), w);
    }
  }

  lemma AfterDayStops(t: Text, e: nat)
    ensures Stops(AfterDay(), Lines, t, e)
  {
    forall x: nat | Matched(AfterDay(), t, x, e) ensures x == |t| || !Has(Lines, t[x]) {
      AfterDayMeaning(t, x, e);
      DayOfMeaning(t, DayAt(t, x), e);
      if x < |t| && t[x] == UNDERSCORE {
        assert SkipBlank(t, x) == x;
        if w :| w in SUFFIXES && WordAt(t, x, w) {
          SuffixIsNoUnderscore(t, x, w);
        }
      }
    }
  }

  lemma SuffixIsNoUnderscore(t: Text, m: nat, w: Text)
    requires w in SUFFIXES && WordAt(t, m, w)
    ensures t[m] != UNDERSCORE
  {
    assert U("st")[0] == 's' as int && U("nd")[0] == 'n' as int && U("rd")[0] == 'r' as int && U("th")[0] == 't' as int;
    assert Lower(t[m + 0]) == w[0];
  }

  /** A date of the model is the expression's longest match. */
  lemma DateMeaning(t: Text, at: nat)
    requires at <= |t|
    ensures if DayOfEnd(t, at).Some? then Longest(DatePattern(), t, at, DayOfEnd(t, at).value)
            else !MatchesFrom(DatePattern(), t, at)
  {
    var r := RunEnd(t, at);
    forall e: nat
      ensures Matched(DatePattern(), t, at, e)
         <==> at + 3 <= r && MonthAt(t, DayAt(t, r)).Some? && Matched(Month(), t, MonthAt(t, DayAt(t, r)).value, e)
    {
      DateParts(t, at, e);
    }
    var m := MonthAt(t, DayAt(t, r));
    if m.Some? {
      forall e: nat | Matched(Month(), t, m.value, e)
        ensures MonthEnd(t, m.value).Some? && e <= MonthEnd(t, m.value).value
      {
        MonthReaches(t, m.value, e);
      }
      if MonthEnd(t, m.value).Some? {
        MonthThere(t, m.value);
      }
    }
  }

  lemma DateParts(t: Text, at: nat, e: nat)
    requires at <= |t|
    ensures var r := RunEnd(t, at);
      Matched(DatePattern(), t, at, e)
      <==> at + 3 <= r && MonthAt(t, DayAt(t, r)).Some? && Matched(Month(), t, MonthAt(t, DayAt(t, r)).value, e)
  {
    var r := RunEnd(t, at);
    RunEndWhole(t, at);
    AfterDayStops(t, e);
    ManyThen(Lines, 3, AfterDay(), t, at, r, e);
    AfterDayMeaning(t, r, e);
    DayOfMeaning(t, DayAt(t, r), e);
  }

  // ----- what the scans find -----------------------------------------------------------------------------------

  function PatternOf(rule: Rule): Pattern {
    match rule
    case Marker => MarkerPattern()
    case DayOfDate => DatePattern()
    case Underscores => Many(Lines, 3)
  }

  /** Where the model sees a match, there is one, and it is the longest that starts there. */
  lemma MatchMeaning(rule: Rule, t: Text, at: nat)
    requires at <= |t|
    ensures if MatchEnd(rule, t, at).Some? then Longest(PatternOf(rule), t, at, MatchEnd(rule, t, at).value)
            else !MatchesFrom(PatternOf(rule), t, at)
  {
    match rule
    case Marker =>
      forall e: nat ensures Matched(MarkerPattern(), t, at, e) <==> MarkerEnd(t, at) == Some(e) {
        MarkerMeaning(t, at, e);
      }
    case DayOfDate => DateMeaning(t, at);
    case Underscores =>
      forall e: nat | Matched(Many(Lines, 3), t, at, e) ensures at + 3 <= e <= RunEnd(t, at) {
        RunReaches(t, at, e);
      }
  }

  /** No span of the list starts before `m` and goes on past its start. */
  ghost predicate StartsFree(ms: seq<Span>, m: Span) {
    forall n :: n in ms && n.start < m.start ==> n.end <= m.start
  }

  lemma {:induction false} ScanFinds(es: seq<Option<nat>>, at: nat, m: Span)
    requires AreEnds(es) && at <= m.start < |es| && es[m.start] == Some(m.end) && StartsFree(Scan(es, at), m)
    ensures m in Scan(es, at)
    decreases |es| - at
  {
    if es[at].Some? {
      var first, rest := Span(at, es[at].value), Scan(es, es[at].value);
      assert Scan(es, at) == [first] + rest;
      if m != first {
        assert at < m.start ==> first in Scan(es, at);
        assert forall n :: n in rest ==> n in Scan(es, at);
        ScanFinds(es, es[at].value, m);
      }
    } else {
      ScanFinds(es, at + 1, m);
    }
  }

  lemma MatchesStartFree(rule: Rule, t: Text, m: Span)
    requires m in Matches(rule, t)
    ensures StartsFree(Matches(rule, t), m)
  {
    var ms := Matches(rule, t);
    var i :| 0 <= i < |ms| && ms[i] == m;
    forall n | n in ms && n.start < m.start ensures n.end <= m.start {
      var j :| 0 <= j < |ms| && ms[j] == n;
    }
  }

  /**
   * Each scan finds the matches of its expression and nothing else: a span is found if and only if it is
   * the longest match that starts there, takes up at least one unit, and does not start inside one found
   * before it.
   */
  lemma ScanMeaning(rule: Rule, t: Text, m: Span)
    ensures m in Matches(rule, t)
       <==> m.start < m.end && Longest(PatternOf(rule), t, m.start, m.end) && StartsFree(Matches(rule, t), m)
  {
    if m in Matches(rule, t) {
      MatchesMatch(rule, t, m);
      MatchMeaning(rule, t, m.start);
      MatchesStartFree(rule, t, m);
    }
    if m.start < m.end && Longest(PatternOf(rule), t, m.start, m.end) && StartsFree(Matches(rule, t), m) {
      MatchMeaning(rule, t, m.start);
      LongestIsOne(PatternOf(rule), t, m.start, m.end, MatchEnd(rule, t, m.start));
      ScanFinds(MatchEnds(rule, t), 0, m);
    }
  }

  lemma LongestIsOne(r: Pattern, t: Text, at: nat, e: nat, end: Option<nat>)
    requires Longest(r, t, at, e) && if end.Some? then Longest(r, t, at, end.value) else !MatchesFrom(r, t, at)
    ensures end == Some(e)
  {
  }
}
