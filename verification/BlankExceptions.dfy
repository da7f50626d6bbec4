/**
 * The exceptions of findBlanks (packages/shared/src/blanks.ts), said with the expressions that the source
 * tests: signature lines, exempt signing dates, and the registry's own number.
 */
module BlankExceptions {
  import opened BlankFinder
  import opened BlankShapes
  import opened Options
  import opened Patterns
  import opened Units

  // ----- lines ----------------------------------------------------------------------------------------------

  /** `a..b` is the line that `at` stands in. */
  predicate IsLineOf(t: Text, at: nat, a: nat, b: nat) {
    && a <= at <= b <= |t| && NEWLINE !in t[a..b]
    && (a == 0 || t[a - 1] == NEWLINE) && (b == |t| || t[b] == NEWLINE)
  }

  lemma {:induction false} LineStartMeaning(t: Text, at: nat)
    requires at <= |t|
    ensures NEWLINE !in t[LineStart(t, at)..at]
    ensures LineStart(t, at) == 0 || t[LineStart(t, at) - 1] == NEWLINE
  {
    if at > 0 && t[at - 1] != NEWLINE {
      LineStartMeaning(t, at - 1);
      var s := LineStart(t, at - 1);
      assert t[s..at] == t[s..at - 1] + [t[at - 1]];
    }
  }

  lemma LineMeaning(t: Text, at: nat)
    requires at <= |t|
    ensures IsLineOf(t, at, LineStart(t, at), LineEnd(t, at))
  {
    LineStartMeaning(t, at);
    var s, e := LineStart(t, at), LineEnd(t, at);
    assert t[s..e] == t[s..at] + t[at..e];
  }

  // ----- signature lines --------------------------------------------------------------------------------------

  /** SIGNATURE_LINE */
  function SignatureLine(): Pattern {
    Cat(TextHead, Cat(Many(Blanks, 0), Cat(Many(Lines, 3), Cat(Many(LinesOrSpaces, 0), TextFoot))))
  }

  lemma SignatureLineMeaning(line: Text)
    ensures IsSignatureLine(line) <==> FoundIn(SignatureLine(), line)
  {
    var rest := Cat(Many(Lines, 3), Cat(Many(LinesOrSpaces, 0), TextFoot));
    FoundAtHead(Cat(Many(Blanks, 0), rest), line);
    var q := SkipBlank(line, 0);
    SkipBlankWhole(line, 0);
    forall j: nat
      ensures Matched(Cat(Many(Blanks, 0), rest), line, 0, j) <==> Matched(rest, line, q, j)
    {
      ManyStops(Lines, 3, Cat(Many(LinesOrSpaces, 0), TextFoot), Blanks, line, j);
      ManyThen(Blanks, 0, rest, line, 0, q, j);
    }
    SignatureRest(line, q);
  }

  lemma SignatureRest(line: Text, q: nat)
    requires q <= |line|
    ensures MatchesFrom(Cat(Many(Lines, 3), Cat(Many(LinesOrSpaces, 0), TextFoot)), line, q)
       <==> RunEnd(line, q) >= q + 3
            && forall i :: RunEnd(line, q) <= i < |line| ==> IsSpace(line[i]) || line[i] == UNDERSCORE
  {
    var tail := Cat(Many(LinesOrSpaces, 0), TextFoot);
    var m := RunEnd(line, q);
    if MatchesFrom(Cat(Many(Lines, 3), tail), line, q) {
      var j: nat :| Matched(Cat(Many(Lines, 3), tail), line, q, j);
      var k := Parts(Many(Lines, 3), tail, line, q, j);
      assert k <= m;
      var l := Parts(Many(LinesOrSpaces, 0), TextFoot, line, k, j);
      forall i | m <= i < |line| ensures IsSpace(line[i]) || line[i] == UNDERSCORE {
        assert Has(LinesOrSpaces, line[i]);
      }
    }
    if m >= q + 3 && forall i :: m <= i < |line| ==> IsSpace(line[i]) || line[i] == UNDERSCORE {
      assert Matched(Many(LinesOrSpaces, 0), line, m, |line|);
      assert Matched(TextFoot, line, |line|, |line|);
      assert Matched(tail, line, m, |line|);
      assert Matched(Many(Lines, 3), line, q, m);
      assert Matched(Cat(Many(Lines, 3), tail), line, q, |line|);
    }
  }

  // ----- exempt dates -------------------------------------------------------------------------------------------

  /** THIS_BEFORE */
  function ThisBefore(): Pattern {
    Cat(Edge, Cat(Lit(U("this")), Cat(Many(Blanks, 1), TextFoot)))
  }

  lemma EdgeLit(w: Text, r: Pattern, t: Text, i: nat, j: nat)
    ensures Matched(Cat(Edge, Cat(Lit(w), r)), t, i, j)
       <==> i <= |t| && WordBoundary(t, i) && WordAt(t, i, w) && Matched(r, t, i + |w|, j)
  {
    AssertionThen(Edge, Cat(Lit(w), r), t, i, j);
    LitThen(w, r, t, i, j);
  }

  lemma BlanksToFoot(t: Text, i: nat, j: nat)
    requires i <= |t|
    ensures Matched(Cat(Many(Blanks, 1), TextFoot), t, i, j) <==> i < |t| == j && SkipBlank(t, i) == |t|
  {
    SkipBlankWhole(t, i);
    var m := SkipBlank(t, i);
    assert Stops(TextFoot, Blanks, t, j);
    ManyThen(Blanks, 1, TextFoot, t, i, m, j);
  }

  lemma EndsInThisMeaning(before: Text)
    ensures EndsInThis(before) <==> FoundIn(ThisBefore(), before)
  {
    var w, r := U("this"), Cat(Many(Blanks, 1), TextFoot);
    forall i: nat, j: nat
      ensures Matched(ThisBefore(), before, i, j)
         <==> i <= |before| && WordBoundary(before, i) && WordAt(before, i, w)
              && i + 4 < |before| == j && SkipBlank(before, i + 4) == |before|
    {
      EdgeLit(w, r, before, i, j);
      if WordAt(before, i, w) {
        BlanksToFoot(before, i + 4, j);
      }
    }
    if EndsInThis(before) {
      var i :| 0 <= i < |before| && WordBoundary(before, i) && WordAt(before, i, w)
        && i + 4 < |before| && SkipBlank(before, i + 4) == |before|;
      assert Matched(ThisBefore(), before, i, |before|);
      assert MatchesFrom(ThisBefore(), before, i);
    }
  }

  /** Blank space before an expression that starts with none. */
  lemma BlanksFrom(r: Pattern, t: Text, i: nat)
    requires i <= |t| && forall j: nat :: Stops(r, Blanks, t, j)
    ensures MatchesFrom(Cat(Many(Blanks, 0), r), t, i) <==> MatchesFrom(r, t, SkipBlank(t, i))
  {
    var q := SkipBlank(t, i);
    SkipBlankWhole(t, i);
    forall j: nat ensures Matched(Cat(Many(Blanks, 0), r), t, i, j) <==> Matched(r, t, q, j) {
      ManyThen(Blanks, 0, r, t, i, q, j);
    }
  }

  /** Words that all start with a letter. */
  predicate AreWords(ws: seq<Text>) {
    forall w :: w in ws ==> w != [] && 97 <= w[0] <= 122
  }

  lemma WordsStop(ws: seq<Text>, r: Pattern, t: Text, j: nat)
    requires AreWords(ws)
    ensures Stops(Cat(OneOf(ws), r), Blanks, t, j)
  {
    forall x: nat | Matched(Cat(OneOf(ws), r), t, x, j) ensures x == |t| || !Has(Blanks, t[x]) {
      OneOfThen(ws, r, t, x, j);
      var w :| w in ws && WordAt(t, x, w);
      assert Lower(t[x + 0]) == w[0];
    }
  }

  const OPENERS: seq<Text> := [U("verified"), U("verification"), U("sworn"), U("affirmed"), U("jurat")]

  function Affirmed(): Pattern {
    Cat(Lit(U("solemnly")), Cat(Many(Blanks, 1), Lit(U("affirmed"))))
  }

  /** SIGNING_BLOCK_START */
  function SigningStart(): Pattern {
    Cat(TextHead, Cat(Many(Blanks, 0), Cat(Either(OneOf(OPENERS), Affirmed()), Edge)))
  }

  lemma OpenersStart()
    ensures AreWords(OPENERS)
  {
    assert U("verified")[0] == U("verification")[0] == 'v' as int;
    assert U("sworn")[0] == 's' as int && U("affirmed")[0] == 'a' as int && U("jurat")[0] == 'j' as int;
  }

  lemma OpenersMeaning(t: Text, q: nat)
    requires q <= |t|
    ensures MatchesFrom(Cat(OneOf(OPENERS), Edge), t, q)
       <==> exists w :: w in OPENERS && WordAt(t, q, w) && WordBoundary(t, q + |w|)
  {
    forall j: nat
      ensures Matched(Cat(OneOf(OPENERS), Edge), t, q, j)
         <==> exists w :: w in OPENERS && WordAt(t, q, w) && Matched(Edge, t, q + |w|, j)
    {
      OneOfThen(OPENERS, Edge, t, q, j);
    }
    if w :| w in OPENERS && WordAt(t, q, w) && WordBoundary(t, q + |w|) {
      assert Matched(Edge, t, q + |w|, q + |w|);
      assert Matched(Cat(OneOf(OPENERS), Edge), t, q, q + |w|);
    }
    if MatchesFrom(Cat(OneOf(OPENERS), Edge), t, q) {
      var j: nat :| Matched(Cat(OneOf(OPENERS), Edge), t, q, j);
      var w :| w in OPENERS && WordAt(t, q, w) && Matched(Edge, t, q + |w|, j);
    }
  }

  lemma LitEdge(w: Text, t: Text, i: nat, j: nat)
    ensures Matched(Cat(Lit(w), Edge), t, i, j) <==> WordAt(t, i, w) && j == i + |w| && WordBoundary(t, j)
  {
    LitThen(w, Edge, t, i, j);
  }

  lemma AffirmedEnds(t: Text, q: nat, j: nat)
    requires q <= |t|
    ensures Matched(Cat(Affirmed(), Edge), t, q, j)
       <==> (WordAt(t, q, U("solemnly"))
             && var r := SkipBlank(t, q + 8);
               r > q + 8 && WordAt(t, r, U("affirmed")) && j == r + 8 && WordBoundary(t, r + 8))
  {
    var a, b, c := Lit(U("solemnly")), Many(Blanks, 1), Lit(U("affirmed"));
    CatAssoc(a, Cat(b, c), Edge, t, q, j);
    LitThen(U("solemnly"), Cat(Cat(b, c), Edge), t, q, j);
    if WordAt(t, q, U("solemnly")) {
      CatAssoc(b, c, Edge, t, q + 8, j);
      AffirmedRest(t, q + 8, j);
    }
  }

  lemma AffirmedRest(t: Text, i: nat, j: nat)
    requires i <= |t|
    ensures Matched(Cat(Many(Blanks, 1), Cat(Lit(U("affirmed")), Edge)), t, i, j)
       <==> var r := SkipBlank(t, i);
         r > i && WordAt(t, r, U("affirmed")) && j == r + 8 && WordBoundary(t, r + 8)
  {
    var r := SkipBlank(t, i);
    SkipBlankWhole(t, i);
    LitStops(U("affirmed"), Edge, Blanks, t, j);
    ManyThen(Blanks, 1, Cat(Lit(U("affirmed")), Edge), t, i, r, j);
    LitEdge(U("affirmed"), t, r, j);
  }

  lemma SigningStartStops(t: Text, j: nat)
    ensures Stops(Cat(Either(OneOf(OPENERS), Affirmed()), Edge), Blanks, t, j)
  {
    OpenersStart();
    WordsStop(OPENERS, Edge, t, j);
    var rest := Cat(Cat(Many(Blanks, 1), Lit(U("affirmed"))), Edge);
    LitStops(U("solemnly"), rest, Blanks, t, j);
    forall x: nat ensures Matched(Cat(Either(OneOf(OPENERS), Affirmed()), Edge), t, x, j)
        ==> Matched(Cat(OneOf(OPENERS), Edge), t, x, j) || Matched(Cat(Lit(U("solemnly")), rest), t, x, j)
    {
      EitherThen(OneOf(OPENERS), Affirmed(), Edge, t, x, j);
      CatAssoc(Lit(U("solemnly")), Cat(Many(Blanks, 1), Lit(U("affirmed"))), Edge, t, x, j);
    }
  }

  lemma SigningStartMeaning(line: Text)
    ensures OpensSigningBlock(line) <==> FoundIn(SigningStart(), line)
  {
    var body, q := Cat(Either(OneOf(OPENERS), Affirmed()), Edge), SkipBlank(line, 0);
    FoundAtHead(Cat(Many(Blanks, 0), body), line);
    forall j: nat ensures Stops(body, Blanks, line, j) {
      SigningStartStops(line, j);
    }
    BlanksFrom(body, line, 0);
    forall j: nat
      ensures Matched(body, line, q, j)
         <==> Matched(Cat(OneOf(OPENERS), Edge), line, q, j) || Matched(Cat(Affirmed(), Edge), line, q, j)
    {
      EitherThen(OneOf(OPENERS), Affirmed(), Edge, line, q, j);
    }
    OpenersMeaning(line, q);
    OpensByAffirming(line);
    OpenersStart();
    OpenersListed(OPENERS, U("verified"), U("verification"), U("sworn"), U("affirmed"), U("jurat"), line, q);
  }

  lemma OpensByAffirming(line: Text)
    ensures OpensWithSolemnlyAffirmed(line) <==> MatchesFrom(Cat(Affirmed(), Edge), line, SkipBlank(line, 0))
  {
    var q := SkipBlank(line, 0);
    forall j: nat
      ensures Matched(Cat(Affirmed(), Edge), line, q, j)
         <==> OpensWithSolemnlyAffirmed(line) && j == SkipBlank(line, q + 8) + 8
    {
      AffirmedEnds(line, q, j);
    }
    if OpensWithSolemnlyAffirmed(line) {
      assert Matched(Cat(Affirmed(), Edge), line, q, SkipBlank(line, q + 8) + 8);
    }
  }

  lemma OpenersListed(ws: seq<Text>, a: Text, b: Text, c: Text, d: Text, e: Text, line: Text, q: nat)
    requires ws == [a, b, c, d, e] && [] !in ws && q == SkipBlank(line, 0)
    ensures (exists w :: w in ws && WordAt(line, q, w) && WordBoundary(line, q + |w|))
       <==> OpensWith(line, a) || OpensWith(line, b) || OpensWith(line, c) || OpensWith(line, d) || OpensWith(line, e)
  {
    forall w | w in ws ensures WordAt(line, q, w) && WordBoundary(line, q + |w|) <==> OpensWith(line, w) {
    }
    OneOfFive(ws, a, b, c, d, e, line);
    if w :| w in ws && OpensWith(line, w) {
      assert WordAt(line, q, w);
    }
  }

  lemma OneOfFive(ws: seq<Text>, a: Text, b: Text, c: Text, d: Text, e: Text, line: Text)
    requires ws == [a, b, c, d, e] && [] !in ws
    ensures (exists w :: w in ws && OpensWith(line, w))
       <==> OpensWith(line, a) || OpensWith(line, b) || OpensWith(line, c) || OpensWith(line, d) || OpensWith(line, e)
  {
    assert a in ws && b in ws && c in ws && d in ws && e in ws;
  }

  const HEADINGS: seq<Text> := [U("verification"), U("jurat")]

  function HeadingColon(): Pattern {
    Cat(Opt(Lit(U(":"))), Cat(Many(Blanks, 0), TextFoot))
  }

  function HeadingTail(): Pattern {
    Cat(Many(Blanks, 0), HeadingColon())
  }

  /** SIGNING_BLOCK_HEADING */
  function SigningHeading(): Pattern {
    Cat(TextHead, Cat(Many(Blanks, 0), Cat(OneOf(HEADINGS), HeadingTail())))
  }

  lemma ToFoot(t: Text, i: nat)
    requires i <= |t|
    ensures MatchesFrom(Cat(Many(Blanks, 0), TextFoot), t, i) <==> SkipBlank(t, i) == |t|
  {
    BlanksFrom(TextFoot, t, i);
    assert Matched(TextFoot, t, |t|, |t|);
  }

  lemma ColonAt(t: Text, m: nat)
    ensures WordAt(t, m, U(":")) <==> m < |t| && t[m] == ':' as int
  {
    if WordAt(t, m, U(":")) {
      assert Lower(t[m + 0]) == U(":")[0];
    }
  }

  lemma HeadingColonMeaning(t: Text, m: nat)
    requires m <= |t|
    ensures MatchesFrom(HeadingColon(), t, m)
       <==> (m < |t| && t[m] == ':' as int && SkipBlank(t, m + 1) == |t|) || SkipBlank(t, m) == |t|
  {
    var foot := Cat(Many(Blanks, 0), TextFoot);
    forall j: nat
      ensures Matched(HeadingColon(), t, m, j)
         <==> (m < |t| && t[m] == ':' as int && Matched(foot, t, m + 1, j)) || Matched(foot, t, m, j)
    {
      OptThen(Lit(U(":")), foot, t, m, j);
      LitThen(U(":"), foot, t, m, j);
      ColonAt(t, m);
    }
    ToFoot(t, m);
    if m < |t| {
      ToFoot(t, m + 1);
    }
    if MatchesFrom(HeadingColon(), t, m) {
      var j: nat :| Matched(HeadingColon(), t, m, j);
      assert Matched(foot, t, m, j) ==> MatchesFrom(foot, t, m);
      assert Matched(foot, t, m + 1, j) ==> MatchesFrom(foot, t, m + 1);
    }
    if MatchesFrom(foot, t, m) {
      var j: nat :| Matched(foot, t, m, j);
      assert Matched(HeadingColon(), t, m, j);
    }
    if m < |t| && t[m] == ':' as int && MatchesFrom(foot, t, m + 1) {
      var j: nat :| Matched(foot, t, m + 1, j);
      assert Matched(HeadingColon(), t, m, j);
    }
  }

  /** The rest of a heading line after its word: a colon or none, and blank space. */
  predicate ColonOnly(t: Text, p: nat)
    requires p <= |t|
  {
    var r := SkipBlank(t, p);
    SkipBlank(t, if r < |t| && t[r] == ':' as int then r + 1 else r) == |t|
  }

  lemma HeadingTailMeaning(t: Text, p: nat)
    requires p <= |t|
    ensures MatchesFrom(HeadingTail(), t, p) <==> ColonOnly(t, p)
  {
    var r := SkipBlank(t, p);
    BlankReaches(t, p, r);
    if MatchesFrom(HeadingTail(), t, p) {
      var j: nat :| Matched(HeadingTail(), t, p, j);
      var m := Parts(Many(Blanks, 0), HeadingColon(), t, p, j);
      assert MatchesFrom(HeadingColon(), t, m);
      BlankReaches(t, p, m);
      HeadingColonMeaning(t, m);
      assert m < |t| && t[m] == ':' as int ==> SkipBlank(t, m) == m;
    }
    if ColonOnly(t, p) {
      HeadingColonMeaning(t, r);
      var j: nat :| Matched(HeadingColon(), t, r, j);
      assert Matched(Many(Blanks, 0), t, p, r);
      assert Matched(HeadingTail(), t, p, j);
    }
  }

  lemma HeadingsStart()
    ensures AreWords(HEADINGS)
  {
    assert U("verification")[0] == 'v' as int && U("jurat")[0] == 'j' as int;
  }

  lemma SigningHeadingMeaning(line: Text)
    ensures IsSigningHeading(line) <==> FoundIn(SigningHeading(), line)
  {
    HeadingFound(line);
    HeadingWord(line, SkipBlank(line, 0));
    HeadingsListed(HEADINGS, U("verification"), U("jurat"), line);
  }

  lemma HeadingFound(line: Text)
    ensures FoundIn(SigningHeading(), line)
       <==> MatchesFrom(Cat(OneOf(HEADINGS), HeadingTail()), line, SkipBlank(line, 0))
  {
    var body := Cat(OneOf(HEADINGS), HeadingTail());
    FoundAtHead(Cat(Many(Blanks, 0), body), line);
    HeadingsStart();
    forall j: nat ensures Stops(body, Blanks, line, j) {
      WordsStop(HEADINGS, HeadingTail(), line, j);
    }
    BlanksFrom(body, line, 0);
  }

  lemma HeadingWord(t: Text, q: nat)
    requires q <= |t|
    ensures MatchesFrom(Cat(OneOf(HEADINGS), HeadingTail()), t, q)
       <==> exists w :: w in HEADINGS && WordAt(t, q, w) && ColonOnly(t, q + |w|)
  {
    forall j: nat
      ensures Matched(Cat(OneOf(HEADINGS), HeadingTail()), t, q, j)
         <==> exists w :: w in HEADINGS && WordAt(t, q, w) && Matched(HeadingTail(), t, q + |w|, j)
    {
      OneOfThen(HEADINGS, HeadingTail(), t, q, j);
    }
    forall w | w in HEADINGS && WordAt(t, q, w)
      ensures MatchesFrom(HeadingTail(), t, q + |w|) <==> ColonOnly(t, q + |w|)
    {
      HeadingTailMeaning(t, q + |w|);
    }
    if w :| w in HEADINGS && WordAt(t, q, w) && ColonOnly(t, q + |w|) {
      var j: nat :| Matched(HeadingTail(), t, q + |w|, j);
      assert Matched(Cat(OneOf(HEADINGS), HeadingTail()), t, q, j);
    }
  }

  lemma OneHeading(t: Text, q: nat)
    ensures WordAt(t, q, U("verification")) ==> !WordAt(t, q, U("jurat"))
  {
    if WordAt(t, q, U("verification")) {
      assert Lower(t[q + 0]) == U("verification")[0] == 'v' as int;
      assert U("jurat")[0] == 'j' as int;
    }
  }

  lemma HeadingsListed(ws: seq<Text>, a: Text, b: Text, line: Text)
    requires ws == HEADINGS && a == U("verification") && b == U("jurat") && ws == [a, b]
    ensures IsSigningHeading(line)
       <==> exists w :: w in ws && WordAt(line, SkipBlank(line, 0), w) && ColonOnly(line, SkipBlank(line, 0) + |w|)
  {
    var q := SkipBlank(line, 0);
    assert a in ws && b in ws && |a| == 12 && |b| == 5;
    OneHeading(line, q);
  }

  // ----- paragraphs ---------------------------------------------------------------------------------------------

  /** An empty line, with the newlines around it. */
  function EmptyLine(): Pattern {
    Cat(Lit([NEWLINE]), Cat(Many(Blanks, 0), Lit([NEWLINE])))
  }

  lemma EmptyLineMeaning(t: Text, i: nat, j: nat)
    ensures Matched(EmptyLine(), t, i, j) <==> EmptyLineAt(t, i) && j == SkipBlank(t, i + 1) + 1
  {
    LitThen([NEWLINE], Cat(Many(Blanks, 0), Lit([NEWLINE])), t, i, j);
    NewlineAt(t, i);
    if i < |t| {
      var q := SkipBlank(t, i + 1);
      SkipBlankWhole(t, i + 1);
      LitStops([NEWLINE], Lit([]), Blanks, t, j);
      ManyThen(Blanks, 0, Lit([NEWLINE]), t, i + 1, q, j);
      NewlineAt(t, q);
    }
  }

  lemma NewlineAt(t: Text, i: nat)
    ensures WordAt(t, i, [NEWLINE]) <==> i < |t| && t[i] == NEWLINE
  {
    if WordAt(t, i, [NEWLINE]) {
      assert Lower(t[i + 0]) == [NEWLINE][0];
    }
  }

  ghost predicate NoEmptyLine(t: Text, from: nat, at: nat) {
    forall i: nat :: from <= i < at ==> !MatchesFrom(EmptyLine(), t, i)
  }

  /** The paragraph `at` stands in: after the last empty line that begins before it, or from the start. */
  ghost predicate IsParagraphStart(t: Text, at: nat, s: nat) {
    || (s == 0 && NoEmptyLine(t, 0, at))
    || (exists i: nat :: i < at && Matched(EmptyLine(), t, i, s) && NoEmptyLine(t, i + 1, at))
  }

  lemma {:induction false} ParagraphMeaning(t: Text, at: nat)
    requires at <= |t|
    ensures IsParagraphStart(t, at, ParagraphStart(t, at))
  {
    if at > 0 {
      var i := at - 1;
      forall j: nat ensures Matched(EmptyLine(), t, i, j) <==> EmptyLineAt(t, i) && j == SkipBlank(t, at) + 1 {
        EmptyLineMeaning(t, i, j);
      }
      if EmptyLineAt(t, i) {
        assert Matched(EmptyLine(), t, i, SkipBlank(t, at) + 1);
      } else {
        ParagraphMeaning(t, i);
        if k: nat :| k < i && Matched(EmptyLine(), t, k, ParagraphStart(t, i)) && NoEmptyLine(t, k + 1, i) {
          assert NoEmptyLine(t, k + 1, at);
        }
      }
    }
  }

  /** The text without the space at its end. */
  predicate IsTrimmed(t: Text, r: Text) {
    r <= t && (forall i :: |r| <= i < |t| ==> IsSpace(t[i])) && (r == [] || !IsSpace(r[|r| - 1]))
  }

  lemma {:induction false} TrimMeaning(t: Text)
    ensures IsTrimmed(t, TrimEnd(t))
  {
    if t != [] && IsSpace(t[|t| - 1]) {
      TrimMeaning(t[..|t| - 1]);
    }
  }

  // ----- the theorem on dates ------------------------------------------------------------------------------------

  /**
   * A date is exempt exactly when "this" stands directly before it on its line, or its paragraph opens with
   * the words of a signing block, or the last line of the text before the paragraph, the space at its end
   * left aside, is a heading of one.
   */
  lemma ExemptDateMeaning(t: Text, at: nat)
    requires at <= |t|
    ensures var from, s := LineStart(t, at), ParagraphStart(t, at);
      var before := TrimEnd(t[..s]);
      var heading := LineStart(before, |before|);
      && IsLineOf(t, at, from, LineEnd(t, at)) && IsParagraphStart(t, at, s)
      && IsTrimmed(t[..s], before) && IsLineOf(before, |before|, heading, |before|)
      && (IsExemptDate(t, at) <==>
            || FoundIn(ThisBefore(), t[from..at])
            || FoundIn(SigningStart(), t[s..LineEnd(t, s)])
            || FoundIn(SigningHeading(), before[heading..]))
  {
    var s := ParagraphStart(t, at);
    var before := TrimEnd(t[..s]);
    LineMeaning(t, at);
    ParagraphMeaning(t, at);
    TrimMeaning(t[..s]);
    LineMeaning(before, |before|);
    EndsInThisMeaning(t[LineStart(t, at)..at]);
    SigningStartMeaning(t[s..LineEnd(t, s)]);
    SigningHeadingMeaning(before[LineStart(before, |before|)..]);
  }
}
