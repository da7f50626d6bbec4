/**
 * What the gateway's check takes for an `internal` segment (hasInternalSegment in
 * apps/gateway/src/app.ts): of a path cut at its slashes, and of a path that will not decode.
 */
module InternalSegments {
  import opened InternalPaths
  import opened Options
  import opened Patterns
  import opened Units

  // ----- segments -----------------------------------------------------------------------------------------------

  /** [/\\] */
  predicate IsCut(c: Unit) {
    c == '/' as int || c == '\\' as int
  }

  /** split(/[/\\]/) gives the text from a to b as a segment. */
  predicate IsSegment(p: Text, a: nat, b: nat) {
    && a <= b <= |p| && (a == 0 || IsCut(p[a - 1])) && (b == |p| || IsCut(p[b]))
    && forall i :: a <= i < b ==> !IsCut(p[i])
  }

  /** The segment up to its first ';' ends at e. */
  predicate IsHead(p: Text, a: nat, e: nat, b: nat) {
    && a <= e <= b <= |p| && (e == b || p[e] == ';' as int)
    && forall i :: a <= i < e ==> p[i] != ';' as int
  }

  /** trim() leaves the text from i to j. */
  predicate IsTrimmedTo(p: Text, a: nat, i: nat, j: nat, e: nat) {
    && a <= i <= j <= e <= |p|
    && (forall x :: a <= x < i ==> IsSpace(p[x])) && (forall x :: j <= x < e ==> IsSpace(p[x]))
    && (i < j ==> !IsSpace(p[i]) && !IsSpace(p[j - 1]))
  }

  /** The segment is `internal`, in any case, but for what follows a ';' and the spaces around it. */
  ghost predicate IsInternal(p: Text, a: nat, b: nat) {
    exists e: nat, i: nat ::
      IsHead(p, a, e, b) && IsTrimmedTo(p, a, i, i + 8, e) && WordAt(p, i, U("internal"))
  }

  lemma WholeIsOne(k: Chars, t: Text, i: nat, m: nat, n: nat)
    requires IsWhole(k, t, i, m) && IsWhole(k, t, i, n)
    ensures m == n
  {
  }

  /** The letters of the word are neither space nor slash nor ';'. */
  lemma LettersOf(p: Text, i: nat, x: nat)
    requires WordAt(p, i, U("internal")) && i <= x < i + 8
    ensures !IsSpace(p[x]) && !IsCut(p[x]) && p[x] != ';' as int
  {
    InternalIsLetters();
    assert Lower(p[i + (x - i)]) == U("internal")[x - i];
  }

  /** The scans of a slice, in the text it is a slice of. */
  lemma ScanInSlice(p: Text, a: nat, at: nat)
    requires a <= at <= |p|
    ensures var m := a + SkipSpace(p[a..], at - a);
      at <= m <= |p| && IsWhole(Spaces, p, at, m)
  {
    var u, m := p[a..], SkipSpace(p[a..], at - a);
    SkipSpaceWhole(u, at - a);
    forall x | at <= x < a + m ensures Has(Spaces, p[x]) {
      assert p[x] == u[x - a];
    }
    assert a + m < |p| ==> p[a + m] == u[m];
  }

  lemma WordInSlice(p: Text, a: nat, at: nat, w: Text)
    requires a <= at <= |p|
    ensures WordAt(p[a..], at - a, w) <==> WordAt(p, at, w)
  {
    var u := p[a..];
    if WordAt(u, at - a, w) {
      forall k | 0 <= k < |w| ensures Lower(p[at + k]) == w[k] {
        assert p[at + k] == u[at - a + k];
      }
    }
    if WordAt(p, at, w) {
      forall k | 0 <= k < |w| ensures Lower(u[at - a + k]) == w[k] {
        assert p[at + k] == u[at - a + k];
      }
    }
  }

  /** The word stands at i after spaces, and only spaces come after it, up to e, which ends the head. */
  predicate HeadIs(p: Text, a: nat, i: nat, e: nat) {
    && a <= i && i + 8 <= e <= |p| && IsWhole(Spaces, p, a, i) && IsWhole(Spaces, p, i + 8, e)
    && WordAt(p, i, U("internal")) && (e == |p| || IsCut(p[e]) || p[e] == ';' as int)
  }

  lemma StartsIsHead(p: Text, a: nat)
    requires a <= |p|
    ensures StartsInternal(p[a..]) <==> exists i: nat, e: nat :: HeadIs(p, a, i, e)
  {
    var u := p[a..];
    var i := a + SkipSpace(u, 0);
    ScanInSlice(p, a, a);
    WordInSlice(p, a, i, U("internal"));
    if WordAt(p, i, U("internal")) {
      var e := a + SkipSpace(u, i - a + 8);
      ScanInSlice(p, a, i + 8);
      assert e < |p| ==> p[e] == u[e - a];
      assert StartsInternal(u) <==> HeadIs(p, a, i, e);
    }
    forall k: nat, e: nat | HeadIs(p, a, k, e) ensures k == i && StartsInternal(u) {
      WholeIsOne(Spaces, p, a, i, k);
      var r := a + SkipSpace(u, i - a + 8);
      WholeIsOne(Spaces, p, i + 8, e, r);
    }
  }

  /** Where the segment ends that holds `at`. */
  function SegmentEnd(p: Text, at: nat): (b: nat)
    requires at <= |p|
    ensures at <= b <= |p| && (b == |p| || IsCut(p[b])) && forall i :: at <= i < b ==> !IsCut(p[i])
    decreases |p| - at
  {
    if at == |p| || IsCut(p[at]) then at else SegmentEnd(p, at + 1)
  }

  lemma HeadInSegment(p: Text, a: nat, i: nat, e: nat)
    requires HeadIs(p, a, i, e) && (a == 0 || IsCut(p[a - 1]))
    ensures IsSegment(p, a, SegmentEnd(p, e)) && IsInternal(p, a, SegmentEnd(p, e))
  {
    var b := SegmentEnd(p, e);
    forall x | a <= x < e ensures !IsCut(p[x]) && p[x] != ';' as int {
      if i <= x < i + 8 {
        LettersOf(p, i, x);
      } else {
        assert Has(Spaces, p[x]);
      }
    }
    LettersOf(p, i, i);
    LettersOf(p, i, i + 7);
    assert IsHead(p, a, e, b) && IsTrimmedTo(p, a, i, i + 8, e);
  }

  lemma SegmentHasHead(p: Text, a: nat, b: nat, i: nat, e: nat)
    requires IsSegment(p, a, b) && IsHead(p, a, e, b) && IsTrimmedTo(p, a, i, i + 8, e)
    requires WordAt(p, i, U("internal"))
    ensures HeadIs(p, a, i, e)
  {
    LettersOf(p, i, i);
    forall x | a <= x < i ensures Has(Spaces, p[x]) {
    }
    forall x | i + 8 <= x < e ensures Has(Spaces, p[x]) {
    }
  }

  /**
   * A path is caught in plain sight exactly when one of its segments, up to a ';' and without the spaces
   * around it, is `internal` in any case.
   */
  lemma InternalMeaning(p: Text)
    ensures HasInternal(p) <==> exists a: nat, b: nat :: IsSegment(p, a, b) && IsInternal(p, a, b)
  {
    if HasInternal(p) {
      var a: nat :| a <= |p| && InternalAt(p, a);
      StartsIsHead(p, a);
      var i: nat, e: nat :| HeadIs(p, a, i, e);
      HeadInSegment(p, a, i, e);
    }
    if a: nat, b: nat :| IsSegment(p, a, b) && IsInternal(p, a, b) {
      var e: nat, i: nat :|
        IsHead(p, a, e, b) && IsTrimmedTo(p, a, i, i + 8, e) && WordAt(p, i, U("internal"));
      SegmentHasHead(p, a, b, i, e);
      StartsIsHead(p, a);
      assert InternalAt(p, a);
    }
  }

  // ----- a path that will not decode -----------------------------------------------------------------------------

  const CUTS: seq<Text> := [U("/"), U("\\"), U("%2f"), U("%5c")]
  const ENDS: seq<Text> := [U("/"), U("\\"), U("%2f"), U("%5c"), U(";")]

  function RawWord(): Pattern {
    Cat(Lit(U("internal")), RawEnd())
  }

  function RawEnd(): Pattern {
    Either(OneOf(ENDS), TextFoot)
  }

  /** The expression tested on a path that will not decode. */
  function RawPattern(): Pattern {
    Cat(Either(TextHead, OneOf(CUTS)), RawWord())
  }

  lemma UnitAt(c: Unit, t: Text, i: nat)
    requires !IsLetter(c)
    ensures WordAt(t, i, [c]) <==> i < |t| && t[i] == c
  {
    if WordAt(t, i, [c]) {
      assert Lower(t[i + 0]) == [c][0];
    }
  }

  lemma CutsAre()
    ensures U("/") == ['/' as int] && U("\\") == ['\\' as int] && U(";") == [';' as int]
    ensures forall w :: w in CUTS <==> w == ['/' as int] || w == ['\\' as int] || w == U("%2f") || w == U("%5c")
    ensures forall w :: w in ENDS <==> w in CUTS || w == [';' as int]
  {
  }

  /** A slash, plain or escaped, starts at `at`. */
  lemma CutAt(t: Text, at: nat)
    ensures (exists w :: w in CUTS && WordAt(t, at, w)) <==> (at < |t| && IsSlash(t[at])) || EscapedSlashAt(t, at)
  {
    CutsAre();
    UnitAt('/' as int, t, at);
    UnitAt('\\' as int, t, at);
  }

  lemma EndMeaning(t: Text, at: nat)
    requires at <= |t|
    ensures MatchesFrom(RawEnd(), t, at)
       <==> at == |t| || IsSlash(t[at]) || t[at] == ';' as int || EscapedSlashAt(t, at)
  {
    CutsAre();
    CutAt(t, at);
    UnitAt(';' as int, t, at);
    if MatchesFrom(RawEnd(), t, at) {
      var j: nat :| Matched(RawEnd(), t, at, j);
      assert Matched(OneOf(ENDS), t, at, j) || Matched(TextFoot, t, at, j);
      if w :| w in ENDS && j == at + |w| && WordAt(t, at, w) {
        assert w in CUTS || WordAt(t, at, [';' as int]);
      }
    }
    if w :| w in ENDS && WordAt(t, at, w) {
      assert Matched(OneOf(ENDS), t, at, at + |w|);
      assert Matched(RawEnd(), t, at, at + |w|);
    }
    if at == |t| {
      assert Matched(TextFoot, t, at, at);
      assert Matched(RawEnd(), t, at, at);
    }
  }

  lemma RawWordMeaning(t: Text, at: nat)
    requires at <= |t|
    ensures MatchesFrom(RawWord(), t, at) <==> WordAt(t, at, U("internal")) && MatchesFrom(RawEnd(), t, at + 8)
  {
    forall j: nat
      ensures Matched(RawWord(), t, at, j) <==> WordAt(t, at, U("internal")) && Matched(RawEnd(), t, at + 8, j)
    {
      LitThen(U("internal"), RawEnd(), t, at, j);
    }
    if WordAt(t, at, U("internal")) {
      SameMatches(RawWord(), at, RawEnd(), at + 8, t);
    }
  }

  /** One of the words takes the text from i to `at`. */
  ghost predicate OneFrom(ws: seq<Text>, t: Text, i: nat, at: nat) {
    exists w :: w in ws && i + |w| == at && WordAt(t, i, w)
  }

  /** A slash, plain or escaped, takes the text from i to `at`. */
  ghost predicate CutFrom(t: Text, i: nat, at: nat) {
    OneFrom(CUTS, t, i, at)
  }

  lemma CutBefore(t: Text, at: nat)
    requires at <= |t|
    ensures SlashEndsAt(t, at) <==> exists i: nat :: CutFrom(t, i, at)
  {
    CutsAre();
    if SlashEndsAt(t, at) {
      var i: nat := if IsSlash(t[at - 1]) then at - 1 else at - 3;
      CutAt(t, i);
      UnitAt('/' as int, t, i);
      UnitAt('\\' as int, t, i);
      assert CutFrom(t, i, at);
    }
    if i: nat :| CutFrom(t, i, at) {
      UnitAt('/' as int, t, i);
      UnitAt('\\' as int, t, i);
    }
  }

  lemma RawFrom(t: Text, i: nat, j: nat)
    ensures Matched(RawPattern(), t, i, j)
       <==> (i == 0 && Matched(RawWord(), t, 0, j))
            || exists at: nat :: CutFrom(t, i, at) && Matched(RawWord(), t, at, j)
  {
    HeadOrOne(CUTS, RawWord(), t, i, j);
  }

  lemma HeadOrOne(ws: seq<Text>, r: Pattern, t: Text, i: nat, j: nat)
    ensures Matched(Cat(Either(TextHead, OneOf(ws)), r), t, i, j)
       <==> (i == 0 && Matched(r, t, 0, j)) || exists at: nat :: OneFrom(ws, t, i, at) && Matched(r, t, at, j)
  {
    EitherThen(TextHead, OneOf(ws), r, t, i, j);
    AssertionThen(TextHead, r, t, i, j);
    OneOfThen(ws, r, t, i, j);
    if w :| w in ws && WordAt(t, i, w) && Matched(r, t, i + |w|, j) {
      assert OneFrom(ws, t, i, i + |w|);
    }
    if at: nat :| OneFrom(ws, t, i, at) && Matched(r, t, at, j) {
      var w :| w in ws && i + |w| == at && WordAt(t, i, w);
    }
  }

  lemma RawAt(p: Text, at: nat)
    requires at <= |p|
    ensures RawInternalAt(p, at) <==> (at == 0 || SlashEndsAt(p, at)) && MatchesFrom(RawWord(), p, at)
  {
    RawWordMeaning(p, at);
    if at + 8 <= |p| {
      EndMeaning(p, at + 8);
    }
  }

  lemma RawIsFound(p: Text, at: nat, i: nat, j: nat)
    requires Matched(RawWord(), p, at, j) && (at == i == 0 || CutFrom(p, i, at))
    ensures FoundIn(RawPattern(), p)
  {
    RawFrom(p, i, j);
    assert MatchesFrom(RawPattern(), p, i);
  }

  lemma FoundIsRaw(p: Text, i: nat, j: nat) returns (at: nat)
    requires Matched(RawPattern(), p, i, j)
    ensures at <= |p| && MatchesFrom(RawWord(), p, at) && (at == 0 || SlashEndsAt(p, at))
  {
    RawFrom(p, i, j);
    if i == 0 && Matched(RawWord(), p, 0, j) {
      at := 0;
    } else {
      at :| CutFrom(p, i, at) && Matched(RawWord(), p, at, j);
      CutBefore(p, at);
    }
  }

  /** The raw check is the test of its expression. */
  lemma RawMeaning(p: Text)
    ensures RawInternal(p) <==> FoundIn(RawPattern(), p)
  {
    if FoundIn(RawPattern(), p) {
      var i: nat :| MatchesFrom(RawPattern(), p, i);
      var j: nat :| Matched(RawPattern(), p, i, j);
      var at := FoundIsRaw(p, i, j);
      RawAt(p, at);
    }
    if at: nat :| at <= |p| && RawInternalAt(p, at) {
      RawAt(p, at);
      CutBefore(p, at);
      var j: nat :| Matched(RawWord(), p, at, j);
      if at == 0 {
        RawIsFound(p, 0, 0, j);
      } else {
        var i: nat :| CutFrom(p, i, at);
        RawIsFound(p, at, i, j);
      }
    }
  }
}
