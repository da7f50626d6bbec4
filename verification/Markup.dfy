/**
 * Reading a draft's content as text (projectContent in packages/shared/src/blanks.ts). The content is
 * a row of tokens: a tag, an entity, or one unit. Each unit of the text is a cell that knows the
 * token it came from.
 */
module Markup {
  import opened Options
  import opened Prefixes
  import opened Units

  // ----- entities -----------------------------------------------------------------------------------

  function DigitValue(c: Unit): nat {
    if IsDigit(c) then c - 48 else if 97 <= c <= 102 then c - 87 else if 65 <= c <= 70 then c - 55 else 0
  }

  /** parseInt(digits, base), exact. */
  function Number(digits: Text, base: nat): nat {
    if digits == [] then 0 else Number(digits[..|digits| - 1], base) * base + DigitValue(digits[|digits| - 1])
  }

  /** String.fromCodePoint: one unit, or a surrogate pair. */
  function FromCodePoint(code: nat): (t: Text)
    requires 0 < code <= 0x10FFFF
    ensures |t| == 1 || (|t| == 2 && IsLowSurrogate(t[1]))
  {
    if code < 0x10000 then [code] else [0xD800 + (code - 0x10000) / 0x400, 0xDC00 + (code - 0x10000) % 0x400]
  }

  predicate IsLowSurrogate(c: Unit) {
    0xDC00 <= c <= 0xDFFF
  }

  function NamedEntity(body: Text): (t: Option<Text>)
    ensures t.Some? ==> |t.value| == 1
  {
    if body == U("amp") then Some(U("&"))
    else if body == U("lt") then Some(U("<"))
    else if body == U("gt") then Some(U(">"))
    else if body == U("quot") then Some(U("\""))
    else if body == U("apos") then Some(U("'"))
    else if body == U("nbsp") then Some([0xA0])
    else None
  }

  /** decodeEntity */
  function DecodeEntity(body: Text): (t: Option<Text>)
    ensures t.Some? ==> |t.value| == 1 || (|t.value| == 2 && IsLowSurrogate(t.value[1]))
  {
    if |body| > 1 && body[0] == '#' as int then
      var code := if body[1] == 'x' as int || body[1] == 'X' as int then Number(body[2..], 16)
          else Number(body[1..], 10);
      if 0 < code <= 0x10FFFF then Some(FromCodePoint(code)) else None
    else NamedEntity(body)
  }

  /** ENTITY at the start of `s`: where its semicolon is. */
  function EntityEnd(s: Text): (e: Option<nat>)
    ensures e.Some? ==> 1 < e.value < |s| && s[0] == '&' as int && s[e.value] == ';' as int
    ensures e.Some? ==> forall i :: 1 <= i <= e.value ==> IsEntityUnit(s[i])
  {
    if |s| < 2 || s[0] != '&' as int then None
    else
      var numeric := s[1] == '#' as int;
      var hex := numeric && |s| > 2 && (s[2] == 'x' as int || s[2] == 'X' as int);
      var from := if hex then 3 else if numeric then 2 else 1;
      var k := if hex then Hex else if numeric then Digit else Letter;
      var e := ClassEnd(k, s, from);
      if from < e < |s| && s[e] == ';' as int then
        assert forall i :: from <= i < e ==> InClass(k, s[i]);
        Some(e)
      else None
  }

  /** What an entity is spelt with, after its ampersand. */
  predicate IsEntityUnit(c: Unit) {
    IsWord(c) || c == '#' as int || c == ';' as int
  }

  predicate Agree(u: Text, v: Text, n: nat) {
    n <= |u| && n <= |v| && forall i :: 0 <= i < n ==> u[i] == v[i]
  }

  lemma {:induction false} ClassEndAgrees(k: Class, u: Text, v: Text, at: nat, n: nat)
    requires at <= n && Agree(u, v, n) && ClassEnd(k, u, at) < n
    ensures ClassEnd(k, v, at) == ClassEnd(k, u, at)
    decreases n - at
  {
    if InClass(k, u[at]) {
      ClassEndAgrees(k, u, v, at + 1, n);
    }
  }

  /** An entity that ends before unit n is read from the first n units alone. */
  lemma EntityAgrees(u: Text, v: Text, n: nat)
    requires Agree(u, v, n) && EntityEnd(u).Some? && EntityEnd(u).value < n
    ensures EntityEnd(v) == EntityEnd(u) && v[1..EntityEnd(u).value] == u[1..EntityEnd(u).value]
  {
    var numeric := u[1] == '#' as int;
    var hex := numeric && (u[2] == 'x' as int || u[2] == 'X' as int);
    ClassEndAgrees(if hex then Hex else if numeric then Digit else Letter, u, v,
                   if hex then 3 else if numeric then 2 else 1, n);
  }

  /** The entity at the start of `s`, if it has a meaning: its length and its units. */
  function EntityAt(s: Text): (r: Option<(nat, Text)>)
    ensures r.Some? ==> 2 < r.value.0 <= |s| && (|r.value.1| == 1 || (|r.value.1| == 2 && IsLowSurrogate(r.value.1[1])))
    ensures r.Some? ==> s[0] == '&' as int
  {
    var e := EntityEnd(s);
    if e.None? then None
    else
      var units := DecodeEntity(s[1..e.value]);
      if units.Some? then Some((e.value + 1, units.value)) else None
  }

  /** An entity is read from its own units alone; no other text can be taken for one. */
  lemma EntityAtAgrees(u: Text, v: Text, m: nat)
    requires Agree(u, v, m) && 0 < m < |v| && !IsEntityUnit(v[m])
    requires EntityAt(u).Some? ==> EntityAt(u).value.0 <= m
    ensures EntityAt(v) == EntityAt(u)
  {
    if EntityEnd(u).Some? && EntityEnd(u).value < m {
      EntityAgrees(u, v, m);
    } else if EntityEnd(v).Some? {
      EntityAgrees(v, u, m);
    }
  }

  // ----- tokens --------------------------------------------------------------------------------------

  /** A tag is skipped, a break is a newline of plain text, the rest is written text. */
  datatype Kind = Tag | Break | Written

  /** How many units of content it takes, and the units of text it gives. */
  datatype Token = Token(len: nat, units: Text, kind: Kind)

  const BLOCK_TAGS: seq<Text> := [
    U("p"), U("div"), U("h1"), U("h2"), U("h3"), U("h4"), U("h5"), U("h6"), U("li"), U("ul"), U("ol"), U("br"),
    U("hr"), U("tr"), U("td"), U("th"), U("table"), U("thead"), U("tbody"), U("blockquote"), U("pre"), U("section")]

  /** BLOCK_TAG */
  predicate IsBlockTag(tag: Text)
    requires |tag| > 1
  {
    var from := if tag[1] == '/' as int then 2 else 1;
    LowerAll(tag[from..ClassEnd(Word, tag, from)]) in BLOCK_TAGS
  }

  /** A '<' with a '>' after it: the length of the tag. */
  function TagLen(s: Text): (n: Option<nat>)
    ensures n.Some? ==> 1 < n.value <= |s| && s[0] == '<' as int && s[n.value - 1] == '>' as int
  {
    if s == [] || s[0] != '<' as int then None
    else
      var close := IndexOf(s, '>' as int, 0);
      if close.Some? then Some(close.value + 1) else None
  }

  /** The token at the start of the content. */
  function Head(html: bool, s: Text): (h: Token)
    requires s != []
    ensures 1 <= h.len <= |s| && |h.units| <= 2
    ensures h.kind != Tag ==> h.units != []
    ensures |h.units| == 2 ==> h.kind == Written && IsLowSurrogate(h.units[1])
  {
    var tag := TagLen(s);
    var entity := EntityAt(s);
    if !html then Token(1, [s[0]], if s[0] == NEWLINE then Break else Written)
    else if tag.Some? then Token(tag.value, if IsBlockTag(s[..tag.value]) then [NEWLINE] else [], Tag)
    else if entity.Some? then Token(entity.value.0, entity.value.1, Written)
    else Token(1, [s[0]], Written)
  }

  /** For each place of the content, the token that a reader standing there would read. */
  function Row(html: bool, s: Text): (row: seq<Token>)
    ensures |row| == |s| && IsRow(row) && forall i :: 0 <= i < |s| ==> row[i] == Head(html, s[i..])
  {
    seq(|s|, i requires 0 <= i < |s| => Head(html, s[i..]))
  }

  predicate FitsIn(h: Token, room: nat) {
    && 1 <= h.len <= room && |h.units| <= 2
    && (h.kind != Tag ==> h.units != [])
    && (|h.units| == 2 ==> h.kind == Written && IsLowSurrogate(h.units[1]))
  }

  predicate IsRow(row: seq<Token>) {
    forall i :: 0 <= i < |row| ==> FitsIn(row[i], |row| - i)
  }

  /** Reading whole tokens leads from i to j. */
  predicate Reaches(row: seq<Token>, i: nat, j: nat)
    requires IsRow(row)
    decreases |row| - i
  {
    i == j || (i < j <= |row| && Reaches(row, i + row[i].len, j))
  }

  lemma ReachesForward(row: seq<Token>, i: nat, j: nat)
    requires IsRow(row) && Reaches(row, i, j)
    ensures i <= j
  {
  }

  lemma {:induction false} ReachesTrans(row: seq<Token>, i: nat, j: nat, k: nat)
    requires IsRow(row) && Reaches(row, i, j) && Reaches(row, j, k)
    ensures Reaches(row, i, k)
    decreases |row| - i
  {
    if i < j {
      ReachesTrans(row, i + row[i].len, j, k);
      ReachesForward(row, j, k);
    }
  }

  /** Two boundaries of the same row of tokens: the first reaches the second. */
  lemma {:induction false} ReachesBetween(row: seq<Token>, i: nat, j: nat, k: nat)
    requires IsRow(row) && Reaches(row, i, j) && Reaches(row, i, k) && j <= k
    ensures Reaches(row, j, k)
    decreases |row| - i
  {
    if i < j {
      ReachesForward(row, i + row[i].len, j);
      ReachesBetween(row, i + row[i].len, j, k);
    }
  }

  // ----- the text and where it comes from ------------------------------------------------------------

  /** A unit of the text, the token it came from, and whether that token is written text. */
  datatype Cell = Cell(unit: Unit, token: Span, written: bool)

  function TokenCells(h: Token, i: nat): (cells: seq<Cell>)
    ensures |cells| == |h.units|
  {
    seq(|h.units|, k requires 0 <= k < |h.units| => Cell(h.units[k], Span(i, i + h.len), h.kind == Written))
  }

  /** The cells of the tokens from i on. */
  function Cells(row: seq<Token>, i: nat): seq<Cell>
    requires IsRow(row) && i <= |row|
    decreases |row| - i
  {
    if i == |row| then [] else TokenCells(row[i], i) + Cells(row, i + row[i].len)
  }

  function TextOf(cells: seq<Cell>): (t: Text)
    ensures |t| == |cells| && forall k :: 0 <= k < |t| ==> t[k] == cells[k].unit
  {
    seq(|cells|, k requires 0 <= k < |cells| => cells[k].unit)
  }

  function SourceOf(c: Cell): Option<Span> {
    if c.written then Some(c.token) else None
  }

  function SourcesOf(cells: seq<Cell>): (ss: seq<Option<Span>>)
    ensures |ss| == |cells| && forall k :: 0 <= k < |ss| ==> ss[k] == SourceOf(cells[k])
  {
    seq(|cells|, k requires 0 <= k < |cells| => SourceOf(cells[k]))
  }

  /** Content whose first unit that is not a space is '<' is HTML. */
  predicate IsHtml(s: Text) {
    var q := SkipSpace(s, 0);
    q < |s| && s[q] == '<' as int
  }

  /** The text of a content, with its sources. */
  function Projected(s: Text): seq<Cell> {
    Cells(Row(IsHtml(s), s), 0)
  }

  lemma ProjectStep(row: seq<Token>, done: seq<Cell>, i: nat)
    requires IsRow(row) && i < |row| && done + Cells(row, i) == Cells(row, 0)
    ensures (done + TokenCells(row[i], i)) + Cells(row, i + row[i].len) == Cells(row, 0)
  {
    ConcatAssoc(done, TokenCells(row[i], i), Cells(row, i + row[i].len));
  }

  lemma ConcatCells(a: seq<Cell>, b: seq<Cell>)
    ensures TextOf(a + b) == TextOf(a) + TextOf(b) && SourcesOf(a + b) == SourcesOf(a) + SourcesOf(b)
  {
  }

  method ReadToken(html: bool, s: Text, i: nat) returns (h: Token)
    requires i < |s|
    ensures h == Row(html, s)[i]
  {
    h := Head(html, s[i..]);
  }

  /** projectContent */
  method ProjectContent(s: Text) returns (text: Text, sources: seq<Option<Span>>)
    ensures text == TextOf(Projected(s)) && sources == SourcesOf(Projected(s))
  {
    var html := IsHtml(s);
    ghost var row := Row(html, s);
    text, sources := [], [];
    ghost var done: seq<Cell> := [];
    var i := 0;
    while i < |s|
      invariant i <= |s|
      invariant done + Cells(row, i) == Cells(row, 0)
      invariant text == TextOf(done) && sources == SourcesOf(done)
    {
      var h := ReadToken(html, s, i);
      var cells := TokenCells(h, i);
      ProjectStep(row, done, i);
      ConcatCells(done, cells);
      text := text + TextOf(cells);
      sources := sources + SourcesOf(cells);
      done := done + cells;
      i := i + h.len;
    }
    assert done == done + [];
  }

  /** The cell's token is a token of the content. */
  predicate Fits(row: seq<Token>, i: nat, c: Cell)
    requires IsRow(row)
  {
    && i <= c.token.start < c.token.end <= |row|
    && Reaches(row, i, c.token.start)
    && row[c.token.start].len == c.token.end - c.token.start
    && (c.written <==> row[c.token.start].kind == Written)
  }

  lemma {:induction false} CellsFit(row: seq<Token>, i: nat, c: Cell)
    requires IsRow(row) && i <= |row| && c in Cells(row, i)
    ensures Fits(row, i, c)
    decreases |row| - i
  {
    if i < |row| {
      if c in Cells(row, i + row[i].len) {
        CellsFit(row, i + row[i].len, c);
      } else {
        assert c in TokenCells(row[i], i);
      }
    }
  }

  predicate IsCellOf(c: Cell, row: seq<Token>, a: nat)
    requires a < |row|
  {
    c.token == Span(a, a + row[a].len) && c.written
  }

  /** No written text is lost: each of its tokens gives the text a unit at least. */
  lemma {:induction false} WrittenIsProjected(row: seq<Token>, i: nat, a: nat)
    requires IsRow(row) && Reaches(row, i, a) && a < |row| && row[a].kind == Written
    ensures exists c :: c in Cells(row, i) && IsCellOf(c, row, a)
    decreases |row| - i
  {
    if i == a {
      var c := TokenCells(row[i], i)[0];
      assert c in Cells(row, i) && IsCellOf(c, row, a);
    } else {
      WrittenIsProjected(row, i + row[i].len, a);
      var c :| c in Cells(row, i + row[i].len) && IsCellOf(c, row, a);
      assert c in Cells(row, i);
    }
  }

  /** A cell after another: from a later token, or the second unit of a pair from the same entity. */
  predicate Follows(c: Cell, d: Cell, next: bool) {
    c.token.end <= d.token.start
    || (next && c.token == d.token && c.written && d.written && IsLowSurrogate(d.unit))
  }

  predicate Ordered(cells: seq<Cell>) {
    && (forall k :: 0 <= k < |cells| ==> cells[k].token.start < cells[k].token.end)
    && (forall k, l :: 0 <= k < l < |cells| ==> Follows(cells[k], cells[l], l == k + 1))
  }

  lemma TokenCellsOrdered(h: Token, i: nat)
    requires 1 <= h.len && |h.units| <= 2 && (|h.units| == 2 ==> h.kind == Written && IsLowSurrogate(h.units[1]))
    ensures Ordered(TokenCells(h, i))
  {
  }

  lemma OrderedConcat(a: seq<Cell>, b: seq<Cell>, at: nat)
    requires Ordered(a) && Ordered(b)
    requires forall c :: c in a ==> c.token.end <= at
    requires forall d :: d in b ==> at <= d.token.start
    ensures Ordered(a + b)
  {
    var ab := a + b;
    forall k, l | 0 <= k < l < |ab| ensures Follows(ab[k], ab[l], l == k + 1) {
      if k < |a| <= l {
        assert a[k] in a && b[l - |a|] in b;
      } else if |a| <= k {
        assert Follows(b[k - |a|], b[l - |a|], l == k + 1);
      }
    }
  }

  /** Sources come in the order of the content, and two are the same only for a surrogate pair. */
  lemma {:induction false} CellsOrdered(row: seq<Token>, i: nat)
    requires IsRow(row) && i <= |row|
    ensures Ordered(Cells(row, i))
    decreases |row| - i
  {
    if i < |row| {
      var next := i + row[i].len;
      CellsOrdered(row, next);
      TokenCellsOrdered(row[i], i);
      forall d | d in Cells(row, next) ensures next <= d.token.start {
        CellsFit(row, next, d);
      }
      OrderedConcat(TokenCells(row[i], i), Cells(row, next), next);
    }
  }
}
