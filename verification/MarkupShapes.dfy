/**
 * The tokens that projectContent reads (packages/shared/src/blanks.ts), said with its expressions: tags and
 * block tags, entities and what they stand for.
 */
module MarkupShapes {
  import opened Markup
  import opened Options
  import opened Patterns
  import opened Units

  // ----- tags ---------------------------------------------------------------------------------------------------

  /** From '<' to the first '>'. */
  function TagPattern(): Pattern {
    Cat(Lit(['<' as int]), Cat(Many(NotGt, 0), Lit(['>' as int])))
  }

  lemma UnitThere(c: Unit, t: Text, i: nat)
    requires !IsLetter(c)
    ensures WordAt(t, i, [c]) <==> i < |t| && t[i] == c
  {
    if WordAt(t, i, [c]) {
      assert Lower(t[i + 0]) == [c][0];
    }
  }

  lemma TagMeaning(s: Text, n: nat)
    ensures Matched(TagPattern(), s, 0, n) <==> TagLen(s) == Some(n)
  {
    LitThen(['<' as int], Cat(Many(NotGt, 0), Lit(['>' as int])), s, 0, n);
    UnitThere('<' as int, s, 0);
    if s != [] && s[0] == '<' as int {
      var close := IndexOf(s, '>' as int, 1);
      assert IndexOf(s, '>' as int, 0) == close;
      var m := if close.Some? then close.value else |s|;
      LitStops(['>' as int], Lit([]), NotGt, s, n);
      ManyThen(NotGt, 0, Lit(['>' as int]), s, 1, m, n);
      UnitThere('>' as int, s, m);
    }
  }

  const NAMES: seq<Text> := [
    U("p"), U("div"), U("h1"), U("h2"), U("h3"), U("h4"), U("h5"), U("h6"), U("li"), U("ul"), U("ol"), U("br"),
    U("hr"), U("tr"), U("td"), U("th"), U("table"), U("thead"), U("tbody"), U("blockquote"), U("pre"), U("section")]

  function NameEdge(): Pattern {
    Cat(OneOf(NAMES), Edge)
  }

  /** BLOCK_TAG */
  function BlockTag(): Pattern {
    Cat(TextHead, Cat(Lit(['<' as int]), Cat(Opt(Lit(['/' as int])), NameEdge())))
  }

  /** A name of lower-case letters and digits. */
  predicate IsName(w: Text) {
    w != [] && forall k :: 0 <= k < |w| ==> IsDigit(w[k]) || 97 <= w[k] <= 122
  }

  predicate IsPlain(s: string) {
    s != "" && forall k :: 0 <= k < |s| ==> '0' <= s[k] <= '9' || 'a' <= s[k] <= 'z'
  }

  lemma PlainIsName(s: string)
    requires IsPlain(s)
    ensures IsName(U(s))
  {
  }

  lemma NameIsWhole(t: Text, from: nat, w: Text)
    requires from <= |t| && IsName(w)
    ensures WordAt(t, from, w) && WordBoundary(t, from + |w|) <==> LowerAll(t[from..ClassEnd(Word, t, from)]) == w
  {
    var e := ClassEnd(Word, t, from);
    if WordAt(t, from, w) {
      forall x | from <= x < from + |w| ensures IsWord(t[x]) {
        assert Lower(t[from + (x - from)]) == w[x - from];
      }
      assert e >= from + |w|;
      if WordBoundary(t, from + |w|) {
        assert e == from + |w|;
      }
    }
    if LowerAll(t[from..e]) == w {
      forall k | 0 <= k < |w| ensures Lower(t[from + k]) == w[k] {
        assert t[from..e][k] == t[from + k];
      }
      assert IsWord(t[e - 1]);
    }
  }

  lemma ShortNames()
    ensures IsName(U("p")) && IsName(U("h1")) && IsName(U("h2")) && IsName(U("h3")) && IsName(U("h4"))
    ensures IsName(U("h5")) && IsName(U("h6")) && IsName(U("li")) && IsName(U("ul")) && IsName(U("ol"))
    ensures IsName(U("br")) && IsName(U("hr")) && IsName(U("tr")) && IsName(U("td")) && IsName(U("th"))
  {
  }

  lemma LongNames()
    ensures IsName(U("div")) && IsName(U("table")) && IsName(U("thead")) && IsName(U("tbody"))
    ensures IsName(U("blockquote")) && IsName(U("pre")) && IsName(U("section"))
  {
    PlainIsName("div");
    PlainIsName("table");
    PlainIsName("thead");
    PlainIsName("tbody");
    PlainIsName("blockquote");
    PlainIsName("pre");
    PlainIsName("section");
  }

  lemma NamesAreNames()
    ensures forall w :: w in NAMES ==> IsName(w)
  {
    ShortNames();
    LongNames();
  }

  lemma NameEdgeMeaning(ws: seq<Text>, t: Text, from: nat, j: nat)
    ensures Matched(Cat(OneOf(ws), Edge), t, from, j)
       <==> exists w :: w in ws && WordAt(t, from, w) && j == from + |w| && WordBoundary(t, j)
  {
    OneOfThen(ws, Edge, t, from, j);
  }

  /** One of the names stands there, up to where a word ends: the whole word is that name. */
  lemma NameMeaning(ws: seq<Text>, t: Text, from: nat)
    requires from <= |t| && forall w :: w in ws ==> IsName(w)
    ensures MatchesFrom(Cat(OneOf(ws), Edge), t, from) <==> LowerAll(t[from..ClassEnd(Word, t, from)]) in ws
  {
    var name := LowerAll(t[from..ClassEnd(Word, t, from)]);
    if MatchesFrom(Cat(OneOf(ws), Edge), t, from) {
      var j: nat :| Matched(Cat(OneOf(ws), Edge), t, from, j);
      NameEdgeMeaning(ws, t, from, j);
      var w :| w in ws && WordAt(t, from, w) && j == from + |w| && WordBoundary(t, j);
      NameIsWhole(t, from, w);
    }
    if name in ws {
      NameIsWhole(t, from, name);
      NameEdgeMeaning(ws, t, from, from + |name|);
      assert Matched(Cat(OneOf(ws), Edge), t, from, from + |name|);
    }
  }

  lemma NameAfterSlash(ws: seq<Text>, t: Text, i: nat, j: nat)
    requires i <= |t|
    ensures Matched(Cat(Opt(Lit(['/' as int])), Cat(OneOf(ws), Edge)), t, i, j)
       <==> (i < |t| && t[i] == '/' as int && Matched(Cat(OneOf(ws), Edge), t, i + 1, j))
            || Matched(Cat(OneOf(ws), Edge), t, i, j)
  {
    OptThen(Lit(['/' as int]), Cat(OneOf(ws), Edge), t, i, j);
    LitThen(['/' as int], Cat(OneOf(ws), Edge), t, i, j);
    UnitThere('/' as int, t, i);
  }

  lemma TagName(ws: seq<Text>, tag: Text)
    requires |tag| > 1 && tag[0] == '<' as int && forall w :: w in ws ==> IsName(w)
    ensures var from := if tag[1] == '/' as int then 2 else 1;
      FoundIn(Cat(TextHead, Cat(Lit(['<' as int]), Cat(Opt(Lit(['/' as int])), Cat(OneOf(ws), Edge)))), tag)
      <==> MatchesFrom(Cat(OneOf(ws), Edge), tag, from)
  {
    var name := Cat(OneOf(ws), Edge);
    var slash := Cat(Opt(Lit(['/' as int])), name);
    var from: nat := if tag[1] == '/' as int then 2 else 1;
    FoundAtHead(Cat(Lit(['<' as int]), slash), tag);
    UnitThere('<' as int, tag, 0);
    forall j: nat ensures Matched(Cat(Lit(['<' as int]), slash), tag, 0, j) <==> Matched(slash, tag, 1, j) {
      LitThen(['<' as int], slash, tag, 0, j);
    }
    SameMatches(Cat(Lit(['<' as int]), slash), 0, slash, 1, tag);
    forall j: nat ensures Matched(slash, tag, 1, j) <==> Matched(name, tag, from, j) {
      NameAfterSlash(ws, tag, 1, j);
      if tag[1] == '/' as int {
        NoNameAtSlash(ws, tag, 1, j);
      }
    }
    SameMatches(slash, 1, name, from, tag);
  }

  lemma NoNameAtSlash(ws: seq<Text>, t: Text, i: nat, j: nat)
    requires i < |t| && t[i] == '/' as int && forall w :: w in ws ==> IsName(w)
    ensures !Matched(Cat(OneOf(ws), Edge), t, i, j)
  {
    NameEdgeMeaning(ws, t, i, j);
    forall w | w in ws ensures !WordAt(t, i, w) {
      assert IsName(w);
      assert Lower(t[i + 0]) != w[0];
    }
  }

  /** A tag is a block tag when BLOCK_TAG finds it so. */
  lemma BlockTagMeaning(tag: Text)
    requires |tag| > 1 && tag[0] == '<' as int
    ensures IsBlockTag(tag) <==> FoundIn(BlockTag(), tag)
  {
    NamesAreNames();
    TagName(NAMES, tag);
    NameMeaning(NAMES, tag, if tag[1] == '/' as int then 2 else 1);
    SameNames();
  }

  lemma SameNames()
    ensures NAMES == BLOCK_TAGS
  {
  }

  // ----- entities -------------------------------------------------------------------------------------------------

  function Numeric(): Pattern {
    Cat(Lit(['#' as int]), Many(Digits, 1))
  }

  function HexNumeric(): Pattern {
    Cat(Lit(['#' as int, 'x' as int]), Many(HexDigits, 1))
  }

  /** ENTITY */
  function Entity(): Pattern {
    Cat(Lit(['&' as int]), Cat(Either(Numeric(), Either(HexNumeric(), Many(Letters, 1))), Lit([';' as int])))
  }

  /** A run of the class, and the semicolon that ends it. */
  lemma RunToSemicolon(k: Chars, c: Class, t: Text, i: nat, j: nat)
    requires i <= |t| && (forall u: Unit :: Has(k, u) <==> InClass(c, u)) && !InClass(c, ';' as int)
    ensures var e := ClassEnd(c, t, i);
      Matched(Cat(Many(k, 1), Lit([';' as int])), t, i, j)
      <==> i < e < |t| && t[e] == ';' as int && j == e + 1
  {
    var e := ClassEnd(c, t, i);
    LitStops([';' as int], Lit([]), k, t, j);
    ManyThen(k, 1, Lit([';' as int]), t, i, e, j);
    UnitThere(';' as int, t, e);
  }

  lemma HexAt(t: Text, i: nat)
    ensures WordAt(t, i, ['#' as int, 'x' as int])
       <==> i + 1 < |t| && t[i] == '#' as int && (t[i + 1] == 'x' as int || t[i + 1] == 'X' as int)
  {
    var w := ['#' as int, 'x' as int];
    if WordAt(t, i, w) {
      assert Lower(t[i + 0]) == w[0] && Lower(t[i + 1]) == w[1];
    }
  }

  lemma NumericMeaning(t: Text, i: nat, j: nat)
    requires i <= |t|
    ensures Matched(Cat(Numeric(), Lit([';' as int])), t, i, j)
       <==> (i < |t| && t[i] == '#' as int
             && var e := ClassEnd(Digit, t, i + 1); i + 1 < e < |t| && t[e] == ';' as int && j == e + 1)
  {
    CatAssoc(Lit(['#' as int]), Many(Digits, 1), Lit([';' as int]), t, i, j);
    LitThen(['#' as int], Cat(Many(Digits, 1), Lit([';' as int])), t, i, j);
    UnitThere('#' as int, t, i);
    if i < |t| {
      RunToSemicolon(Digits, Digit, t, i + 1, j);
    }
  }

  lemma HexNumericMeaning(t: Text, i: nat, j: nat)
    requires i <= |t|
    ensures Matched(Cat(HexNumeric(), Lit([';' as int])), t, i, j)
       <==> (i + 1 < |t| && t[i] == '#' as int && (t[i + 1] == 'x' as int || t[i + 1] == 'X' as int)
             && var e := ClassEnd(Hex, t, i + 2); i + 2 < e < |t| && t[e] == ';' as int && j == e + 1)
  {
    var head := ['#' as int, 'x' as int];
    CatAssoc(Lit(head), Many(HexDigits, 1), Lit([';' as int]), t, i, j);
    LitThen(head, Cat(Many(HexDigits, 1), Lit([';' as int])), t, i, j);
    HexAt(t, i);
    if i + 1 < |t| {
      RunToSemicolon(HexDigits, Hex, t, i + 2, j);
    }
  }

  lemma EntityParts(t: Text, j: nat)
    ensures Matched(Entity(), t, 0, j)
       <==> t != [] && t[0] == '&' as int
            && (|| Matched(Cat(Numeric(), Lit([';' as int])), t, 1, j)
                || Matched(Cat(HexNumeric(), Lit([';' as int])), t, 1, j)
                || Matched(Cat(Many(Letters, 1), Lit([';' as int])), t, 1, j))
  {
    var semi := Lit([';' as int]);
    LitThen(['&' as int], Cat(Either(Numeric(), Either(HexNumeric(), Many(Letters, 1))), semi), t, 0, j);
    UnitThere('&' as int, t, 0);
    EitherThen(Numeric(), Either(HexNumeric(), Many(Letters, 1)), semi, t, 1, j);
    EitherThen(HexNumeric(), Many(Letters, 1), semi, t, 1, j);
  }

  /** What the model reads as an entity is what ENTITY matches, to its semicolon. */
  lemma EntityMeaning(s: Text, n: nat)
    ensures Matched(Entity(), s, 0, n) <==> n > 0 && EntityEnd(s) == Some(n - 1)
  {
    EntityParts(s, n);
    if |s| > 1 && s[0] == '&' as int {
      NumericMeaning(s, 1, n);
      HexNumericMeaning(s, 1, n);
      RunToSemicolon(Letters, Letter, s, 1, n);
    } else if s != [] {
      NumericMeaning(s, 1, n);
      HexNumericMeaning(s, 1, n);
      RunToSemicolon(Letters, Letter, s, 1, n);
    }
  }

  // ----- what entities stand for ---------------------------------------------------------------------------------

  /** A digit of a numeral, hex ones in lower case. */
  function DigitOf(d: nat): (c: Unit)
    requires d < 16
    ensures InClass(Hex, c) && DigitValue(c) == d && (d < 10 ==> IsDigit(c))
  {
    if d < 10 then '0' as int + d else 'a' as int + (d - 10)
  }

  predicate IsBase(base: nat) {
    base == 10 || base == 16
  }

  /** A number written in a base. */
  function Numeral(n: nat, base: nat): (ds: Text)
    requires IsBase(base)
    ensures ds != []
    ensures forall i :: 0 <= i < |ds| ==> InClass(if base == 10 then Digit else Hex, ds[i])
  {
    if n < base then [DigitOf(n)]
    else
      assert n / base < n;
      Numeral(n / base, base) + [DigitOf(n % base)]
  }

  lemma NumberAppend(ds: Text, c: Unit, base: nat)
    ensures Number(ds + [c], base) == Number(ds, base) * base + DigitValue(c)
  {
    assert (ds + [c])[..|ds|] == ds;
  }

  lemma QuotientAndRest(n: nat, base: nat)
    requires IsBase(base)
    ensures n / base * base + n % base == n
  {
  }

  lemma {:induction false} NumeralIsRead(n: nat, base: nat)
    requires IsBase(base)
    ensures Number(Numeral(n, base), base) == n
  {
    if n < base {
      assert [DigitOf(n)][..0] == [];
    } else {
      NumeralIsRead(n / base, base);
      NumberAppend(Numeral(n / base, base), DigitOf(n % base), base);
      QuotientAndRest(n, base);
    }
  }

  /** Zeros in front change nothing. */
  lemma {:induction false} ZeroInFront(ds: Text, base: nat)
    ensures Number(['0' as int] + ds, base) == Number(ds, base)
  {
    if ds == [] {
      assert ['0' as int][..0] == [];
    } else {
      ZeroInFront(ds[..|ds| - 1], base);
      assert (['0' as int] + ds)[..|ds|] == ['0' as int] + ds[..|ds| - 1];
    }
  }

  /** A character's number, decimal or hex, is read back as that character, and as nothing when there is none. */
  lemma CharacterIsRead(code: nat)
    ensures var dec, hex := ['#' as int] + Numeral(code, 10), ['#' as int, 'x' as int] + Numeral(code, 16);
      && DecodeEntity(dec) == DecodeEntity(hex)
      && DecodeEntity(dec) == if 0 < code <= 0x10FFFF then Some(FromCodePoint(code)) else None
  {
    var dec, hex := ['#' as int] + Numeral(code, 10), ['#' as int, 'x' as int] + Numeral(code, 16);
    NumeralIsRead(code, 10);
    NumeralIsRead(code, 16);
    assert dec[1..] == Numeral(code, 10) && hex[2..] == Numeral(code, 16);
    assert dec[1] == Numeral(code, 10)[0];
    assert InClass(Digit, dec[1]);
  }

  /** The named entities are six, and no other name stands for anything. */
  lemma NamedMeaning(body: Text)
    requires body == [] || body[0] != '#' as int
    ensures DecodeEntity(body)
         == if body == U("amp") then Some(['&' as int]) else if body == U("lt") then Some(['<' as int])
            else if body == U("gt") then Some(['>' as int]) else if body == U("quot") then Some(['"' as int])
            else if body == U("apos") then Some(['\'' as int]) else if body == U("nbsp") then Some([160]) else None
  {
    assert U("&") == ['&' as int] && U("<") == ['<' as int] && U(">") == ['>' as int];
    assert U("\"") == ['"' as int] && U("'") == ['\'' as int];
  }

  // ----- tokens -----------------------------------------------------------------------------------------------------

  /**
   * The token at the start of a content: of plain text, one unit, a break when it is a newline; of markup,
   * a tag, which gives a newline when it is a block tag, an entity that stands for something, or one unit.
   */
  ghost predicate IsToken(html: bool, s: Text, h: Token) {
    if !html then s != [] && h == Token(1, [s[0]], if s[0] == NEWLINE then Break else Written)
    else if MatchesFrom(TagPattern(), s, 0) then
      && h.kind == Tag && Matched(TagPattern(), s, 0, h.len)
      && h.units == if FoundIn(BlockTag(), s[..h.len]) then [NEWLINE] else []
    else if exists n: nat :: StandsFor(s, n) then
      h.kind == Written && StandsFor(s, h.len) && DecodeEntity(s[1..h.len - 1]) == Some(h.units)
    else s != [] && h == Token(1, [s[0]], Written)
  }

  /** The first n units are an entity that stands for something. */
  ghost predicate StandsFor(s: Text, n: nat) {
    1 < n <= |s| && Matched(Entity(), s, 0, n) && DecodeEntity(s[1..n - 1]).Some?
  }

  lemma TokenMeaning(html: bool, s: Text)
    requires s != []
    ensures IsToken(html, s, Head(html, s))
  {
    forall n: nat ensures Matched(TagPattern(), s, 0, n) <==> TagLen(s) == Some(n) {
      TagMeaning(s, n);
    }
    forall n: nat ensures Matched(Entity(), s, 0, n) <==> n > 0 && EntityEnd(s) == Some(n - 1) {
      EntityMeaning(s, n);
    }
    if html {
      if TagLen(s).Some? {
        assert Matched(TagPattern(), s, 0, TagLen(s).value);
        BlockTagMeaning(s[..TagLen(s).value]);
      } else if EntityAt(s).Some? {
        assert StandsFor(s, EntityAt(s).value.0);
      }
    }
  }

  /** A content is read as markup exactly when its first unit that is no space is '<'. */
  lemma HtmlMeaning(s: Text)
    ensures IsHtml(s) <==> exists q: nat :: q < |s| && s[q] == '<' as int && forall i :: 0 <= i < q ==> IsSpace(s[i])
  {
    SkipSpaceWhole(s, 0);
    if q: nat :| q < |s| && s[q] == '<' as int && forall i :: 0 <= i < q ==> IsSpace(s[i]) {
      assert IsWhole(Spaces, s, 0, q);
      assert SkipSpace(s, 0) == q;
    }
  }
}
