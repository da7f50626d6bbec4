/**
 * Regular expressions as data, and what it is for one to match a span of a text: the language of the
 * expression, without any order in which a matcher tries things. Letters match in any case. The
 * expressions of packages/shared/src/blanks.ts are written in it.
 */
module Patterns {
  import opened Units

  /** The classes of units those expressions repeat. */
  datatype Chars = Spaces | Blanks | Lines | LinesOrSpaces | Dots | Digits | HexDigits | Letters
                 | NotBracket | NotBrace | NotGt

  predicate Has(k: Chars, c: Unit) {
    match k
    case Spaces => IsSpace(c)
    case Blanks => IsSpace(c) && c != NEWLINE
    case Lines => c == UNDERSCORE
    case LinesOrSpaces => c == UNDERSCORE || IsSpace(c)
    case Dots => c == '.' as int || IsSpace(c)
    case Digits => '0' as int <= c <= '9' as int
    case HexDigits => '0' as int <= c <= '9' as int || 'a' as int <= c <= 'f' as int || 'A' as int <= c <= 'F' as int
    case Letters => 'a' as int <= c <= 'z' as int || 'A' as int <= c <= 'Z' as int
    case NotGt => c != '>' as int
    case NotBracket => c != ']' as int
    case NotBrace => c != '}' as int
  }

  /** A lower-case literal, one of some, {least,} or {n} of a class, and the assertions \b, ^ and $. */
  datatype Pattern =
    | Lit(w: Text)
    | OneOf(ws: seq<Text>)
    | Many(k: Chars, least: nat)
    | Times(k: Chars, n: nat)
    | Cat(a: Pattern, b: Pattern)
    | Either(a: Pattern, b: Pattern)
    | Edge
    | TextHead
    | TextFoot
    | LineHead
    | LineFoot

  function Opt(r: Pattern): Pattern {
    Either(r, Lit([]))
  }

  /** The expression matches the text from i to j. */
  ghost predicate Matched(r: Pattern, t: Text, i: nat, j: nat)
    decreases r, t
  {
    i <= j <= |t|
    && match r
       case Lit(w) => j == i + |w| && WordAt(t, i, w)
       case OneOf(ws) => exists w :: w in ws && j == i + |w| && WordAt(t, i, w)
       case Many(k, least) => i + least <= j && forall x :: i <= x < j ==> Has(k, t[x])
       case Times(k, n) => i + n == j && forall x :: i <= x < j ==> Has(k, t[x])
       case Cat(a, b) => exists m: nat :: Matched(a, t, i, m) && Matched(b, t, m, j)
       case Either(a, b) => Matched(a, t, i, j) || Matched(b, t, i, j)
       case Edge => i == j && WordBoundary(t, i)
       case TextHead => i == j == 0
       case TextFoot => i == j == |t|
       case LineHead => i == j && (i == 0 || IsLineEnd(t[i - 1]))
       case LineFoot => i == j && (i == |t| || IsLineEnd(t[i]))
  }

  /** The longest match that starts at i. */
  ghost predicate Longest(r: Pattern, t: Text, i: nat, j: nat) {
    Matched(r, t, i, j) && forall e: nat :: Matched(r, t, i, e) ==> e <= j
  }

  ghost predicate MatchesFrom(r: Pattern, t: Text, i: nat) {
    exists j: nat :: Matched(r, t, i, j)
  }

  /** test() */
  ghost predicate FoundIn(r: Pattern, t: Text) {
    exists i: nat :: MatchesFrom(r, t, i)
  }

  lemma SameMatches(a: Pattern, i: nat, b: Pattern, k: nat, t: Text)
    requires forall j: nat :: Matched(a, t, i, j) <==> Matched(b, t, k, j)
    ensures MatchesFrom(a, t, i) <==> MatchesFrom(b, t, k)
  {
    if MatchesFrom(a, t, i) {
      var j: nat :| Matched(a, t, i, j);
      assert Matched(b, t, k, j);
    }
  }

  // ----- one step of an expression ----------------------------------------------------------------------

  /** The units of the class from i on end at m. */
  predicate IsWhole(k: Chars, t: Text, i: nat, m: nat) {
    i <= m <= |t| && (forall x :: i <= x < m ==> Has(k, t[x])) && (m == |t| || !Has(k, t[m]))
  }

  /** No match of the expression that ends at j starts with a unit of the class. */
  ghost predicate Stops(r: Pattern, k: Chars, t: Text, j: nat) {
    forall x: nat :: Matched(r, t, x, j) ==> x == |t| || !Has(k, t[x])
  }

  /** Where the two parts of a match meet. */
  lemma Parts(a: Pattern, b: Pattern, t: Text, i: nat, j: nat) returns (m: nat)
    requires Matched(Cat(a, b), t, i, j)
    ensures i <= m <= j && Matched(a, t, i, m) && Matched(b, t, m, j)
  {
    assert exists x: nat :: Matched(a, t, i, x) && Matched(b, t, x, j);
    m :| Matched(a, t, i, m) && Matched(b, t, m, j);
  }

  lemma LitThen(w: Text, r: Pattern, t: Text, i: nat, j: nat)
    ensures Matched(Cat(Lit(w), r), t, i, j) <==> WordAt(t, i, w) && Matched(r, t, i + |w|, j)
  {
    if WordAt(t, i, w) && Matched(r, t, i + |w|, j) {
      assert Matched(Lit(w), t, i, i + |w|);
    }
  }

  lemma OneOfThen(ws: seq<Text>, r: Pattern, t: Text, i: nat, j: nat)
    ensures Matched(Cat(OneOf(ws), r), t, i, j) <==> exists w :: w in ws && WordAt(t, i, w) && Matched(r, t, i + |w|, j)
  {
    if w :| w in ws && WordAt(t, i, w) && Matched(r, t, i + |w|, j) {
      assert Matched(OneOf(ws), t, i, i + |w|);
    }
  }

  /** An assertion, which takes no units. */
  lemma AssertionThen(a: Pattern, r: Pattern, t: Text, i: nat, j: nat)
    requires a.Edge? || a.TextHead? || a.LineHead?
    ensures Matched(Cat(a, r), t, i, j) <==> Matched(a, t, i, i) && Matched(r, t, i, j)
  {
  }

  lemma ManyThen(k: Chars, least: nat, r: Pattern, t: Text, i: nat, m: nat, j: nat)
    requires IsWhole(k, t, i, m) && Stops(r, k, t, j)
    ensures Matched(Cat(Many(k, least), r), t, i, j) <==> i + least <= m && Matched(r, t, m, j)
  {
    if Matched(Cat(Many(k, least), r), t, i, j) {
      var x := Parts(Many(k, least), r, t, i, j);
      assert x <= m;
    }
    if i + least <= m && Matched(r, t, m, j) {
      assert Matched(Many(k, least), t, i, m);
    }
  }

  lemma LitStops(w: Text, r: Pattern, k: Chars, t: Text, j: nat)
    requires w != [] && forall c: Unit :: Has(k, c) ==> Lower(c) != w[0]
    ensures Stops(Lit(w), k, t, j) && Stops(Cat(Lit(w), r), k, t, j)
  {
    forall x: nat | WordAt(t, x, w) ensures !Has(k, t[x]) {
      assert Lower(t[x + 0]) == w[0];
    }
    forall x: nat | Matched(Cat(Lit(w), r), t, x, j) ensures x == |t| || !Has(k, t[x]) {
      LitThen(w, r, t, x, j);
    }
  }

  lemma ManyStops(k2: Chars, least: nat, r: Pattern, k: Chars, t: Text, j: nat)
    requires least > 0 && forall c: Unit :: Has(k, c) ==> !Has(k2, c)
    ensures Stops(Cat(Many(k2, least), r), k, t, j)
  {
    forall x: nat | Matched(Cat(Many(k2, least), r), t, x, j) ensures x == |t| || !Has(k, t[x]) {
      var m := Parts(Many(k2, least), r, t, x, j);
      assert Has(k2, t[x]);
    }
  }

  lemma OptThen(a: Pattern, r: Pattern, t: Text, i: nat, j: nat)
    ensures Matched(Cat(Opt(a), r), t, i, j) <==> Matched(Cat(a, r), t, i, j) || Matched(r, t, i, j)
  {
    if Matched(Cat(Opt(a), r), t, i, j) {
      var m := Parts(Opt(a), r, t, i, j);
      assert Matched(a, t, i, m) || Matched(Lit([]), t, i, m);
    }
    if Matched(Cat(a, r), t, i, j) {
      var m := Parts(a, r, t, i, j);
      assert Matched(Opt(a), t, i, m);
    }
    if Matched(r, t, i, j) {
      assert Matched(Opt(a), t, i, i);
    }
  }

  lemma EitherThen(a: Pattern, b: Pattern, r: Pattern, t: Text, i: nat, j: nat)
    ensures Matched(Cat(Either(a, b), r), t, i, j) <==> Matched(Cat(a, r), t, i, j) || Matched(Cat(b, r), t, i, j)
  {
    if Matched(Cat(Either(a, b), r), t, i, j) {
      var m := Parts(Either(a, b), r, t, i, j);
    }
    if Matched(Cat(a, r), t, i, j) {
      var m := Parts(a, r, t, i, j);
      assert Matched(Either(a, b), t, i, m);
    }
    if Matched(Cat(b, r), t, i, j) {
      var m := Parts(b, r, t, i, j);
      assert Matched(Either(a, b), t, i, m);
    }
  }

  lemma CatAssoc(a: Pattern, b: Pattern, c: Pattern, t: Text, i: nat, j: nat)
    ensures Matched(Cat(Cat(a, b), c), t, i, j) <==> Matched(Cat(a, Cat(b, c)), t, i, j)
  {
    if Matched(Cat(Cat(a, b), c), t, i, j) {
      var m := Parts(Cat(a, b), c, t, i, j);
      var l := Parts(a, b, t, i, m);
      assert Matched(Cat(b, c), t, l, j);
    }
    if Matched(Cat(a, Cat(b, c)), t, i, j) {
      var l := Parts(a, Cat(b, c), t, i, j);
      var m := Parts(b, c, t, l, j);
      assert Matched(Cat(a, b), t, i, m);
    }
  }

  /** An expression that starts with ^ is found when it matches from the start. */
  lemma FoundAtHead(r: Pattern, t: Text)
    ensures FoundIn(Cat(TextHead, r), t) <==> MatchesFrom(r, t, 0)
  {
    if FoundIn(Cat(TextHead, r), t) {
      var i: nat :| MatchesFrom(Cat(TextHead, r), t, i);
      var j: nat :| Matched(Cat(TextHead, r), t, i, j);
      AssertionThen(TextHead, r, t, i, j);
    }
    if MatchesFrom(r, t, 0) {
      var j: nat :| Matched(r, t, 0, j);
      AssertionThen(TextHead, r, t, 0, j);
      assert MatchesFrom(Cat(TextHead, r), t, 0);
    }
  }

  /** What \s matches: tabs, line ends, spaces of any width, and the mark that starts a file. */
  lemma SpacesAre(c: Unit)
    ensures IsSpace(c) <==> c in [9, 10, 11, 12, 13, 32, 160, 5760, 8232, 8233, 8239, 8287, 12288, 65279]
                                || 8192 <= c <= 8202
  {
  }

  // ----- the scans of Units, as classes -----------------------------------------------------------------

  lemma SkipBlankWhole(t: Text, i: nat)
    requires i <= |t|
    ensures IsWhole(Blanks, t, i, SkipBlank(t, i))
  {
  }

  lemma RunEndWhole(t: Text, i: nat)
    requires i <= |t|
    ensures IsWhole(Lines, t, i, RunEnd(t, i))
  {
  }

  lemma {:induction false} SkipSpaceWhole(t: Text, i: nat)
    requires i <= |t|
    ensures IsWhole(Spaces, t, i, SkipSpace(t, i))
    decreases |t| - i
  {
    if i < |t| && IsSpace(t[i]) {
      SkipSpaceWhole(t, i + 1);
    }
  }
}
