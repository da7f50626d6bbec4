/**
 * The gateway's check for an `internal` path segment (hasInternalSegment in apps/gateway/src/app.ts):
 * percent-encoding, section 2.1 of RFC 3986, is undone up to three times.
 */
module InternalPaths {
  import opened Markup
  import opened Options
  import opened PercentEncoding
  import opened Units

  const MAX_DECODE_PASSES: nat := 3

  // ----- decodeURIComponent ------------------------------------------------------------------------------

  /** The byte that a percent sign and two hex digits at `at` stand for. */
  function ByteAt(p: Text, at: nat): (b: Option<nat>)
    ensures b.Some? ==> b.value < 256
    ensures b.Some? ==> at + 3 <= |p| && p[at] == PERCENT && IsHexDigit(p[at + 1]) && IsHexDigit(p[at + 2])
  {
    if at + 3 <= |p| && p[at] == PERCENT && IsHexDigit(p[at + 1]) && IsHexDigit(p[at + 2])
    then Some(DigitValue(p[at + 1]) * 16 + DigitValue(p[at + 2])) else None
  }

  /** A continuation byte's six bits. */
  function TailAt(p: Text, at: nat): (b: Option<nat>)
    ensures b.Some? ==> ByteAt(p, at).Some? && b.value < 64
  {
    var b := ByteAt(p, at);
    if b.Some? && 0x80 <= b.value < 0xC0 then Some(b.value - 0x80) else None
  }

  /** How many bytes a UTF-8 sequence with this first byte has; 0 when none starts so. */
  function SequenceLen(first: nat): (n: nat)
    ensures n <= 4
  {
    if first < 0x80 then 1 else if first < 0xC0 then 0 else if first < 0xE0 then 2
    else if first < 0xF0 then 3 else if first < 0xF8 then 4 else 0
  }

  predicate IsScalar(code: nat, least: nat) {
    least <= code <= 0x10FFFF && !(0xD800 <= code <= 0xDFFF) && code > 0
  }

  /** The code point of an escaped UTF-8 sequence of more than one byte. */
  function WideCode(p: Text, first: nat): (code: Option<nat>)
    ensures code.Some? ==> 0 < code.value <= 0x10FFFF && 3 * SequenceLen(first) <= |p|
    ensures code.Some? ==> forall k :: 1 <= k < SequenceLen(first) ==> ByteAt(p, 3 * k).Some?
  {
    var b1, b2, b3 := TailAt(p, 3), TailAt(p, 6), TailAt(p, 9);
    if SequenceLen(first) == 2 && b1.Some? && first >= 0xC0 && IsScalar((first - 0xC0) * 64 + b1.value, 0x80)
    then Some((first - 0xC0) * 64 + b1.value)
    else if SequenceLen(first) == 3 && b1.Some? && b2.Some? && first >= 0xE0
            && IsScalar((first - 0xE0) * 4096 + b1.value * 64 + b2.value, 0x800)
    then Some((first - 0xE0) * 4096 + b1.value * 64 + b2.value)
    else if SequenceLen(first) == 4 && b1.Some? && b2.Some? && b3.Some? && first >= 0xF0
            && IsScalar((first - 0xF0) * 262144 + b1.value * 4096 + b2.value * 64 + b3.value, 0x10000)
    then Some((first - 0xF0) * 262144 + b1.value * 4096 + b2.value * 64 + b3.value)
    else None
  }

  /** The first unit or escape: how long it is and what it stands for; none when it is malformed. */
  function First(p: Text): (r: Option<(nat, Text)>)
    requires p != []
    ensures r.Some? ==> 1 <= r.value.0 <= |p| && forall k :: 0 <= k < r.value.0 ==> IsEscapeUnit(p[k]) || r.value.0 == 1
    ensures p[0] != PERCENT ==> r == Some((1, [p[0]]))
  {
    if p[0] != PERCENT then Some((1, [p[0]]))
    else
      var b := ByteAt(p, 0);
      if b.None? || SequenceLen(b.value) == 0 then None
      else if SequenceLen(b.value) == 1 then Some((3, [b.value]))
      else
        var code := WideCode(p, b.value);
        if code.None? then None
        else
          var n := SequenceLen(b.value);
          assert forall k :: 1 <= k < n ==> ByteAt(p, 3 * k).Some?;
          assert ByteAt(p, 3).Some? && (n > 2 ==> ByteAt(p, 6).Some?) && (n > 3 ==> ByteAt(p, 9).Some?);
          Some((3 * n, FromCodePoint(code.value)))
  }

  predicate IsEscapeUnit(c: Unit) {
    c == PERCENT || IsHexDigit(c)
  }

  /** Decoding with a reader of first units. */
  function DecodeWith(first: Text -> Option<(nat, Text)>, p: Text): Option<Text>
    decreases |p|
  {
    if p == [] then Some([])
    else if first(p).None? || first(p).value.0 < 1 || first(p).value.0 > |p| then None
    else
      var rest := DecodeWith(first, p[first(p).value.0..]);
      if rest.None? then None else Some(first(p).value.1 + rest.value)
  }

  function Reader(): Text -> Option<(nat, Text)> {
    p => if p == [] then None else First(p)
  }

  /** decodeURIComponent; none is its URIError. */
  function Decode(p: Text): Option<Text> {
    DecodeWith(Reader(), p)
  }

  // ----- the check ------------------------------------------------------------------------------------------

  predicate IsSlash(c: Unit) {
    c == '/' as int || c == '\\' as int
  }

  /** Text that starts with the word, in any case, but for spaces, up to a slash, a ';' or the end. */
  predicate StartsWith(u: Text, w: Text) {
    var q := SkipSpace(u, 0);
    WordAt(u, q, w)
    && var r := SkipSpace(u, q + |w|);
      r == |u| || IsSlash(u[r]) || u[r] == ';' as int
  }

  predicate StartsInternal(u: Text) {
    StartsWith(u, U("internal"))
  }

  /** A segment that starts at `at` and is `internal`. */
  predicate InternalAt(p: Text, at: nat) {
    at <= |p| && (at == 0 || IsSlash(p[at - 1])) && StartsInternal(p[at..])
  }

  predicate HasInternal(p: Text) {
    exists at :: 0 <= at <= |p| && InternalAt(p, at)
  }

  /** A slash, an escaped slash, or the edge of the text, as the raw check sees them. */
  predicate SlashEndsAt(p: Text, at: nat) {
    at > 0 && at <= |p| && (IsSlash(p[at - 1]) || (at >= 3 && EscapedSlashAt(p, at - 3)))
  }

  predicate EscapedSlashAt(p: Text, at: nat) {
    WordAt(p, at, U("%2f")) || WordAt(p, at, U("%5c"))
  }

  /** The word stands at `at` between slashes, edges or a ';', as the raw check sees them. */
  predicate RawInternalAt(p: Text, at: nat) {
    && at + 8 <= |p| && WordAt(p, at, U("internal"))
    && (at == 0 || SlashEndsAt(p, at))
    && (at + 8 == |p| || IsSlash(p[at + 8]) || p[at + 8] == ';' as int || EscapedSlashAt(p, at + 8))
  }

  /** The check of a path that will not decode. */
  predicate RawInternal(p: Text) {
    exists at: nat :: at <= |p| && RawInternalAt(p, at)
  }

  /** The decode loop, for a decoder, the check of a decoded path and the check of one that will not decode. */
  predicate CaughtBy(decode: Text -> Option<Text>, check: Text -> bool, raw: Text -> bool, p: Text, passes: nat)
    decreases passes
  {
    if passes == 0 || PERCENT !in p then check(p)
    else
      var d := decode(p);
      if d.None? then raw(p) || check(p) else CaughtBy(decode, check, raw, d.value, passes - 1)
  }

  function Decoder(): Text -> Option<Text> {
    p => Decode(p)
  }

  function Checker(): Text -> bool {
    p => HasInternal(p)
  }

  function RawChecker(): Text -> bool {
    p => RawInternal(p)
  }

  /** What hasInternalSegment answers for a path, with so many decode passes left. */
  predicate Caught(p: Text, passes: nat) {
    CaughtBy(Decoder(), Checker(), RawChecker(), p, passes)
  }

  /** The part of a URL before any '?' and any '#'. */
  function PathOf(url: Text): (p: Text)
    ensures '?' as int !in p && '#' as int !in p && p <= url
    ensures p == url || url[|p|] == '?' as int || url[|p|] == '#' as int
  {
    var q := IndexOf(url, '?' as int, 0);
    var beforeQuery := if q.Some? then url[..q.value] else url;
    var h := IndexOf(beforeQuery, '#' as int, 0);
    if h.Some? then beforeQuery[..h.value] else beforeQuery
  }

  /** The decode loop of hasInternalSegment and the check after it. */
  method DecodeAndCheck(decode: Text -> Option<Text>, check: Text -> bool, raw: Text -> bool, path0: Text)
    returns (caught: bool)
    ensures caught == CaughtBy(decode, check, raw, path0, MAX_DECODE_PASSES)
  {
    var path := path0;
    var i: nat := 0;
    while i < MAX_DECODE_PASSES && PERCENT in path
      invariant i <= MAX_DECODE_PASSES
      invariant CaughtBy(decode, check, raw, path0, MAX_DECODE_PASSES)
             == CaughtBy(decode, check, raw, path, MAX_DECODE_PASSES - i)
    {
      var d := decode(path);
      if d.None? {
        return raw(path) || check(path);
      }
      path := d.value;
      i := i + 1;
    }
    caught := check(path);
  }

  /** hasInternalSegment */
  method HasInternalSegment(url: Text) returns (caught: bool)
    ensures caught == Caught(PathOf(url), MAX_DECODE_PASSES)
  {
    caught := DecodeAndCheck(Decoder(), Checker(), RawChecker(), PathOf(url));
  }

  // ----- a decode pass keeps an internal segment -------------------------------------------------------------

  /**
   * A reader reads an escape from its own units alone, no escape holds a slash, and other units stand for
   * themselves.
   */
  ghost predicate ReadsWell(first: Text -> Option<(nat, Text)>, p: Text) {
    && (p != [] && p[0] != PERCENT ==> first(p) == Some((1, [p[0]])))
    && (p != [] && first(p).Some? ==>
          && 1 <= first(p).value.0 <= |p|
          && (forall i: nat :: first(p).value.0 <= i <= |p| ==> first(p[..i]) == first(p))
          && (forall i: nat :: i < |p| && IsSlash(p[i]) ==> i == 0 || first(p).value.0 <= i))
  }

  ghost predicate AlwaysReadsWell(first: Text -> Option<(nat, Text)>) {
    forall p: Text {:trigger ReadsWell(first, p)} :: ReadsWell(first, p)
  }

  lemma ByteIsLocal(p: Text, i: nat, at: nat)
    requires at + 3 <= i <= |p|
    ensures ByteAt(p[..i], at) == ByteAt(p, at)
  {
  }

  lemma WideIsLocal(p: Text, i: nat, first: nat)
    requires SequenceLen(first) > 1 && 3 * SequenceLen(first) <= i <= |p|
    ensures WideCode(p[..i], first) == WideCode(p, first)
  {
    ByteIsLocal(p, i, 3);
    if SequenceLen(first) > 2 {
      ByteIsLocal(p, i, 6);
    }
    if SequenceLen(first) > 3 {
      ByteIsLocal(p, i, 9);
    }
  }

  lemma FirstIsLocal(p: Text, i: nat)
    requires p != [] && First(p).Some? && First(p).value.0 <= i <= |p|
    ensures i > 0 && First(p[..i]) == First(p)
  {
    if p[0] == PERCENT {
      ByteIsLocal(p, i, 0);
      if SequenceLen(ByteAt(p, 0).value) > 1 {
        WideIsLocal(p, i, ByteAt(p, 0).value);
      }
    }
  }

  lemma SlashNotInside(p: Text, i: nat)
    requires p != [] && First(p).Some? && i < |p| && IsSlash(p[i])
    ensures i == 0 || First(p).value.0 <= i
  {
  }

  lemma FirstReadsWell(p: Text)
    ensures ReadsWell(Reader(), p)
  {
    if p != [] && First(p).Some? {
      forall i: nat | First(p).value.0 <= i <= |p| ensures Reader()(p[..i]) == Reader()(p) {
        FirstIsLocal(p, i);
      }
      forall i: nat | i < |p| && IsSlash(p[i]) ensures i == 0 || First(p).value.0 <= i {
        SlashNotInside(p, i);
      }
    }
  }

  predicate EndsInSlash(t: Text) {
    t != [] && IsSlash(t[|t| - 1])
  }

  /** Decoding goes slash by slash: no escape reaches across one. */
  lemma {:induction false} DecodeAtSlash(first: Text -> Option<(nat, Text)>, p: Text, i: nat)
    requires AlwaysReadsWell(first) && DecodeWith(first, p).Some? && 0 < i <= |p| && IsSlash(p[i - 1])
    ensures DecodeWith(first, p[..i]).Some? && DecodeWith(first, p[i..]).Some?
    ensures DecodeWith(first, p).value == DecodeWith(first, p[..i]).value + DecodeWith(first, p[i..]).value
    ensures EndsInSlash(DecodeWith(first, p[..i]).value)
    decreases |p|
  {
    assert ReadsWell(first, p) && IsSlash(p[i - 1]);
    AfterFirst(first, p);
    var n := first(p).value.0;
    var q := p[n..];
    if i == 1 {
      DecodeSlash(first, p);
    } else {
      assert q[i - n - 1 + 0] == p[i - 1];
      DecodeAtSlash(first, q, i - n);
      assert q[i - n..] == p[i..];
      var before := DecodeWith(first, q[..i - n]).value;
      JoinFirst(first, p, i, before);
      EndsConcat(first(p).value.1, before, DecodeWith(first, p[i..]).value);
    }
  }

  lemma AfterFirst(first: Text -> Option<(nat, Text)>, p: Text)
    requires ReadsWell(first, p) && p != [] && DecodeWith(first, p).Some?
    ensures first(p).Some? && 1 <= first(p).value.0 <= |p| && DecodeWith(first, p[first(p).value.0..]).Some?
    ensures DecodeWith(first, p).value == first(p).value.1 + DecodeWith(first, p[first(p).value.0..]).value
  {
  }

  lemma EndsConcat(units: Text, before: Text, after: Text)
    requires EndsInSlash(before)
    ensures units + (before + after) == (units + before) + after && EndsInSlash(units + before)
  {
  }

  lemma DecodeSlash(first: Text -> Option<(nat, Text)>, p: Text)
    requires ReadsWell(first, p) && DecodeWith(first, p).Some? && p != [] && IsSlash(p[0])
    ensures DecodeWith(first, p[..1]) == Some([p[0]]) && DecodeWith(first, p[1..]).Some?
    ensures DecodeWith(first, p).value == [p[0]] + DecodeWith(first, p[1..]).value
  {
    PlainFirst(first, p);
    assert first(p[..1]) == first(p) == Some((1, [p[0]]));
    assert p[..1][1..] == [];
    assert DecodeWith(first, []) == Some([]);
    assert [p[0]] + [] == [p[0]];
  }

  lemma JoinFirst(first: Text -> Option<(nat, Text)>, p: Text, i: nat, before: Text)
    requires ReadsWell(first, p) && p != [] && first(p).Some? && first(p).value.0 <= i <= |p|
    requires DecodeWith(first, p[first(p).value.0..][..i - first(p).value.0]) == Some(before)
    ensures DecodeWith(first, p[..i]) == Some(first(p).value.1 + before)
  {
    var n := first(p).value.0;
    assert first(p[..i]) == first(p);
    assert p[..i][n..] == p[n..][..i - n];
  }

  lemma PlainFirst(first: Text -> Option<(nat, Text)>, p: Text)
    requires ReadsWell(first, p) && DecodeWith(first, p).Some? && p != [] && p[0] != PERCENT
    ensures DecodeWith(first, p[1..]).Some? && DecodeWith(first, p).value == [p[0]] + DecodeWith(first, p[1..]).value
  {
  }

  lemma CutTwice(p: Text, m: nat)
    requires 0 < m <= |p|
    ensures p[1..][m - 1..] == p[m..] && p[..m] == [p[0]] + p[1..][..m - 1]
  {
  }

  /** Units that are no percent sign decode to themselves. */
  lemma {:induction false} DecodePlain(first: Text -> Option<(nat, Text)>, p: Text, m: nat)
    requires AlwaysReadsWell(first) && DecodeWith(first, p).Some? && m <= |p|
    requires forall k :: 0 <= k < m ==> p[k] != PERCENT
    ensures DecodeWith(first, p[m..]).Some? && DecodeWith(first, p).value == p[..m] + DecodeWith(first, p[m..]).value
    decreases m
  {
    if m == 0 {
      assert p[0..] == p;
    } else {
      assert ReadsWell(first, p);
      PlainFirst(first, p);
      DecodePlain(first, p[1..], m - 1);
      CutTwice(p, m);
    }
  }

  lemma {:induction false} SkipSpaceAgrees(u: Text, v: Text, at: nat, n: nat)
    requires at <= n && Agree(u, v, n) && SkipSpace(u, at) < n
    ensures SkipSpace(v, at) == SkipSpace(u, at)
    decreases n - at
  {
    if IsSpace(u[at]) {
      SkipSpaceAgrees(u, v, at + 1, n);
    }
  }

  /** How much of the text shows that it starts with the word. */
  function Shown(u: Text, w: Text): nat
    requires StartsWith(u, w)
  {
    var r := SkipSpace(u, SkipSpace(u, 0) + |w|);
    if r == |u| then r else r + 1
  }

  lemma SpacesOnly(u: Text, at: nat, k: nat)
    requires at <= |u| && at <= k < SkipSpace(u, at)
    ensures IsSpace(u[k])
    decreases |u| - at
  {
    if at < k {
      SpacesOnly(u, at + 1, k);
    }
  }

  lemma ShownHasNoPercent(u: Text, w: Text)
    requires StartsWith(u, w) && forall k :: 0 <= k < |w| ==> 97 <= w[k] <= 122
    ensures Shown(u, w) <= |u| && forall k :: 0 <= k < Shown(u, w) ==> u[k] != PERCENT
  {
    var q := SkipSpace(u, 0);
    var r := SkipSpace(u, q + |w|);
    forall k | 0 <= k < Shown(u, w) ensures u[k] != PERCENT {
      if k < q {
        SpacesOnly(u, 0, k);
      } else if k < q + |w| {
        assert Lower(u[q + (k - q)]) == w[k - q];
      } else if k < r {
        SpacesOnly(u, q + |w|, k);
      }
    }
  }

  lemma InternalIsLetters()
    ensures forall k :: 0 <= k < |U("internal")| ==> 97 <= U("internal")[k] <= 122
  {
    var s := "internal";
    forall k | 0 <= k < |s| ensures 97 <= s[k] as int <= 122 {
      assert s[k] in ['i', 'n', 't', 'e', 'r', 'a', 'l'];
    }
  }

  /** What starts with the word still does after what follows is decoded. */
  lemma WordStays(u: Text, v: Text, w: Text)
    requires StartsWith(u, w) && Agree(u, v, Shown(u, w)) && (Shown(u, w) == |u| ==> v == u)
    ensures StartsWith(v, w)
  {
    var q := SkipSpace(u, 0);
    var r := SkipSpace(u, q + |w|);
    if r < |u| {
      SkipSpaceAgrees(u, v, 0, r + 1);
      WordAgrees(u, v, q, w, r + 1);
      SkipSpaceAgrees(u, v, q + |w|, r + 1);
      assert u[r] == v[r];
    }
  }

  lemma WordAgrees(u: Text, v: Text, at: nat, w: Text, n: nat)
    requires WordAt(u, at, w) && Agree(u, v, n) && at + |w| <= n
    ensures WordAt(v, at, w)
  {
  }

  lemma ReaderReadsWell()
    ensures AlwaysReadsWell(Reader())
  {
    forall p: Text ensures ReadsWell(Reader(), p) {
      FirstReadsWell(p);
    }
  }

  /** A decode pass keeps an internal segment. */
  lemma DecodeKeepsInternal(p: Text)
    requires HasInternal(p) && Decode(p).Some?
    ensures HasInternal(Decode(p).value)
  {
    var first := Reader();
    ReaderReadsWell();
    InternalIsLetters();
    var at: nat :| at <= |p| && InternalAt(p, at);
    if at == 0 {
      assert p[0..] == p;
      StartStays(first, p, U("internal"));
      assert Decode(p).value[0..] == Decode(p).value;
      assert InternalAt(Decode(p).value, 0);
    } else {
      DecodeAtSlash(first, p, at);
      StartStays(first, p[at..], U("internal"));
      var before, v := DecodeWith(first, p[..at]).value, DecodeWith(first, p[at..]).value;
      assert (before + v)[|before|..] == v;
      assert InternalAt(before + v, |before|);
    }
  }

  lemma StartStays(first: Text -> Option<(nat, Text)>, u: Text, w: Text)
    requires AlwaysReadsWell(first) && StartsWith(u, w) && DecodeWith(first, u).Some?
    requires forall k :: 0 <= k < |w| ==> 97 <= w[k] <= 122
    ensures StartsWith(DecodeWith(first, u).value, w)
  {
    var n := Shown(u, w);
    ShownHasNoPercent(u, w);
    DecodePlain(first, u, n);
    if n == |u| {
      assert u[n..] == [] && u[..n] == u;
    }
    WordStays(u, DecodeWith(first, u).value, w);
  }

  // ----- a decode pass undoes an encoding -------------------------------------------------------------------

  lemma DigitSpelled(c: Unit, d: nat)
    ensures SpellsDigit(c, d) <==> IsHexDigit(c) && DigitValue(c) == d
  {
  }

  lemma ByteSpelled(e: Text, at: nat, b: nat)
    ensures SpellsByte(e, at, b) <==> ByteAt(e, at) == Some(b)
  {
    if at + 3 <= |e| {
      DigitSpelled(e[at + 1], b / 16);
      DigitSpelled(e[at + 2], b % 16);
    }
  }

  /** The first byte of a code point tells how many there are. */
  lemma FirstByteTellsLength(code: nat)
    requires code <= 0x10FFFF
    ensures Utf8(code)[0] < 256 && SequenceLen(Utf8(code)[0]) == |Utf8(code)|
  {
  }

  lemma Sextet(x: nat, y: nat)
    requires y < 64
    ensures (x * 64 + y) / 64 == x && (x * 64 + y) % 64 == y
  {
  }

  lemma TwoBytes(a: nat, b: nat)
    requires 0x80 <= a * 64 + b < 0x800 && b < 64
    ensures Utf8(a * 64 + b) == [0xC0 + a, 0x80 + b]
  {
    Sextet(a, b);
  }

  lemma ThreeBytes(a: nat, b: nat, c: nat)
    requires 0x800 <= a * 4096 + b * 64 + c < 0x10000 && b < 64 && c < 64
    ensures Utf8(a * 4096 + b * 64 + c) == [0xE0 + a, 0x80 + b, 0x80 + c]
  {
    Sextet(a, b);
    Sextet(a * 64 + b, c);
  }

  lemma FourBytes(a: nat, b: nat, c: nat, d: nat)
    requires 0x10000 <= a * 262144 + b * 4096 + c * 64 + d && b < 64 && c < 64 && d < 64
    ensures Utf8(a * 262144 + b * 4096 + c * 64 + d) == [0xF0 + a, 0x80 + b, 0x80 + c, 0x80 + d]
  {
    Sextet(a, b);
    Sextet(a * 64 + b, c);
    Sextet(a * 4096 + b * 64 + c, d);
  }

  lemma TailsSpelled(e: Text, bytes: seq<nat>)
    requires Spells(e, bytes) && forall k :: 1 <= k < |bytes| ==> 0x80 <= bytes[k] < 0xC0
    ensures forall k :: 1 <= k < |bytes| ==> TailAt(e, 3 * k) == Some(bytes[k] - 0x80)
  {
    forall k | 1 <= k < |bytes| ensures TailAt(e, 3 * k) == Some(bytes[k] - 0x80) {
      ByteSpelled(e, 3 * k, bytes[k]);
    }
  }

  /** The code point that escaped bytes give, by how many they are. */
  lemma WideOfTails(e: Text, first: nat, code: nat, tails: seq<nat>)
    requires 0x80 <= code <= 0x10FFFF && !IsSurrogate(code) && SequenceLen(first) == 1 + |tails|
    requires forall k :: 1 <= k <= |tails| ==> TailAt(e, 3 * k) == Some(tails[k - 1])
    requires match |tails|
             case 1 => first >= 0xC0 && code >= 0x80 && code == (first - 0xC0) * 64 + tails[0]
             case 2 => first >= 0xE0 && code >= 0x800 && code == (first - 0xE0) * 4096 + tails[0] * 64 + tails[1]
             case 3 => first >= 0xF0 && code >= 0x10000
                       && code == (first - 0xF0) * 262144 + tails[0] * 4096 + tails[1] * 64 + tails[2]
             case _ => false
    ensures WideCode(e, first) == Some(code)
  {
    assert TailAt(e, 3 * 1) == Some(tails[0]);
    assert |tails| > 1 ==> TailAt(e, 3 * 2) == Some(tails[1]);
    assert |tails| > 2 ==> TailAt(e, 3 * 3) == Some(tails[2]);
  }

  /** What the bytes of a code point say of it, by how many they are. */
  lemma BytesTell(code: nat)
    requires 0x80 <= code <= 0x10FFFF
    ensures var bytes := Utf8(code);
      (forall k :: 1 <= k < |bytes| ==> 0x80 <= bytes[k] < 0xC0)
      && match |bytes|
         case 2 => bytes[0] >= 0xC0 && code == (bytes[0] - 0xC0) * 64 + (bytes[1] - 0x80)
         case 3 => bytes[0] >= 0xE0 && code >= 0x800
                   && code == (bytes[0] - 0xE0) * 4096 + (bytes[1] - 0x80) * 64 + (bytes[2] - 0x80)
         case 4 => bytes[0] >= 0xF0 && code >= 0x10000
                   && code == (bytes[0] - 0xF0) * 262144 + (bytes[1] - 0x80) * 4096 + (bytes[2] - 0x80) * 64
                              + (bytes[3] - 0x80)
         case _ => false
  {
  }

  lemma WideSpelled(e: Text, code: nat)
    requires 0x80 <= code <= 0x10FFFF && !IsSurrogate(code) && Spells(e, Utf8(code))
    ensures WideCode(e, Utf8(code)[0]) == Some(code)
  {
    var bytes := Utf8(code);
    BytesTell(code);
    TailsSpelled(e, bytes);
    FirstByteTellsLength(code);
    var tails := seq(|bytes| - 1, i requires 0 <= i < |bytes| - 1 => bytes[i + 1] - 0x80);
    WideOfTails(e, bytes[0], code, tails);
  }

  /** The units of a code point, one or a surrogate pair, are where it stands. */
  lemma PointUnits(p: Text)
    requires p != [] && !IsSurrogate(PointOf(p)) && PointOf(p) > 0
    ensures FromCodePoint(PointOf(p)) == p[..PointWidth(p)]
  {
  }

  lemma EscapeIsRead(e: Text, p: Text)
    requires p != [] && EscapesPoint(e, p)
    ensures e != [] && First(e) == Some((3 * |Utf8(PointOf(p))|, p[..PointWidth(p)]))
  {
    var code := PointOf(p);
    assert SpellsByte(e, 3 * 0, Utf8(code)[0]);
    ByteSpelled(e, 3 * 0, Utf8(code)[0]);
    FirstByteTellsLength(code);
    if code >= 0x80 {
      WideSpelled(e, code);
      PointUnits(p);
    } else {
      assert [code] == p[..1];
    }
  }

  lemma TailIsSpelled(e: Text, at: nat)
    requires TailAt(e, at).Some?
    ensures SpellsByte(e, at, 0x80 + TailAt(e, at).value)
  {
    ByteSpelled(e, at, 0x80 + TailAt(e, at).value);
  }

  /** What makes an escape readable, by how many bytes it has. */
  lemma WideTells(e: Text, first: nat)
    requires WideCode(e, first).Some?
    ensures 0x80 <= WideCode(e, first).value && !IsSurrogate(WideCode(e, first).value) && TailAt(e, 3).Some?
    ensures var code := WideCode(e, first).value;
      match SequenceLen(first)
         case 2 => code < 0x800 && code == (first - 0xC0) * 64 + TailAt(e, 3).value
         case 3 => 0x800 <= code < 0x10000 && TailAt(e, 6).Some?
                   && code == (first - 0xE0) * 4096 + TailAt(e, 3).value * 64 + TailAt(e, 6).value
         case 4 => 0x10000 <= code && TailAt(e, 6).Some? && TailAt(e, 9).Some?
                   && code == (first - 0xF0) * 262144 + TailAt(e, 3).value * 4096 + TailAt(e, 6).value * 64
                       + TailAt(e, 9).value
         case _ => false
  {
  }

  /** The bytes of the escape that starts with `first`. */
  function BytesRead(e: Text, first: nat): (bytes: seq<nat>)
    requires SequenceLen(first) > 1
    ensures |bytes| == SequenceLen(first) && bytes[0] == first
    ensures forall k :: 1 <= k < |bytes| && TailAt(e, 3 * k).Some? ==> bytes[k] == 0x80 + TailAt(e, 3 * k).value
  {
    var n := SequenceLen(first);
    seq(n, k requires 0 <= k < n => if k > 0 && TailAt(e, 3 * k).Some? then 0x80 + TailAt(e, 3 * k).value else first)
  }

  lemma BytesOfCode(code: nat, bytes: seq<nat>)
    requires 2 <= |bytes| && forall k :: 1 <= k < |bytes| ==> 0x80 <= bytes[k] < 0xC0
    requires match |bytes|
             case 2 => bytes[0] >= 0xC0 && 0x80 <= code < 0x800 && code == (bytes[0] - 0xC0) * 64 + (bytes[1] - 0x80)
             case 3 => bytes[0] >= 0xE0 && 0x800 <= code < 0x10000
                       && code == (bytes[0] - 0xE0) * 4096 + (bytes[1] - 0x80) * 64 + (bytes[2] - 0x80)
             case 4 => bytes[0] >= 0xF0 && 0x10000 <= code
                       && code == (bytes[0] - 0xF0) * 262144 + (bytes[1] - 0x80) * 4096 + (bytes[2] - 0x80) * 64
                           + (bytes[3] - 0x80)
             case _ => false
    ensures Utf8(code) == bytes
  {
    if |bytes| == 2 {
      TwoBytes(bytes[0] - 0xC0, bytes[1] - 0x80);
    } else if |bytes| == 3 {
      ThreeBytes(bytes[0] - 0xE0, bytes[1] - 0x80, bytes[2] - 0x80);
    } else {
      FourBytes(bytes[0] - 0xF0, bytes[1] - 0x80, bytes[2] - 0x80, bytes[3] - 0x80);
    }
  }

  lemma BytesReadAre(e: Text, first: nat)
    requires WideCode(e, first).Some?
    ensures SequenceLen(first) > 1 && Utf8(WideCode(e, first).value) == BytesRead(e, first)
  {
    WideTells(e, first);
    var bytes := BytesRead(e, first);
    assert bytes[1] == 0x80 + TailAt(e, 3 * 1).value;
    assert |bytes| > 2 ==> bytes[2] == 0x80 + TailAt(e, 3 * 2).value;
    assert |bytes| > 3 ==> bytes[3] == 0x80 + TailAt(e, 3 * 3).value;
    BytesOfCode(WideCode(e, first).value, bytes);
  }

  /** An escape read is one of a code point. */
  lemma WideIsSpelled(e: Text, first: nat)
    requires ByteAt(e, 0) == Some(first) && WideCode(e, first).Some?
    ensures var code := WideCode(e, first).value;
      code >= 0x80 && !IsSurrogate(code) && |Utf8(code)| == SequenceLen(first) && Spells(e, Utf8(code))
  {
    WideTells(e, first);
    BytesReadAre(e, first);
    ByteSpelled(e, 3 * 0, first);
    var bytes := BytesRead(e, first);
    forall k | 0 <= k < |bytes| ensures SpellsByte(e, 3 * k, bytes[k]) {
      if k > 0 {
        TailIsSpelled(e, 3 * k);
      }
    }
  }

  /** The units of a code point stand for it, whatever follows. */
  lemma PointOfUnits(code: nat, rest: Text)
    requires 0 < code <= 0x10FFFF && !IsSurrogate(code)
    ensures PointOf(FromCodePoint(code) + rest) == code
        && PointWidth(FromCodePoint(code) + rest) == |FromCodePoint(code)|
  {
  }

  /** What is read from a percent sign on is the escaped code point. */
  lemma ReadIsEscape(e: Text, rest: Text)
    requires e != [] && e[0] == PERCENT && First(e).Some?
    ensures var p := First(e).value.1 + rest;
      && p != [] && EscapesPoint(e, p) && First(e).value.0 == 3 * |Utf8(PointOf(p))| && p[PointWidth(p)..] == rest
  {
    var b := ByteAt(e, 0).value;
    if SequenceLen(b) == 1 {
      ByteSpelled(e, 0, b);
    } else {
      WideIsSpelled(e, b);
      PointOfUnits(WideCode(e, b).value, rest);
    }
  }

  /** A pass undoes one encoding: it succeeds on the encodings of a text, and on nothing else. */
  lemma {:induction false} DecodesEncoded(e: Text, p: Text)
    requires Encoded(e, p)
    ensures Decode(e) == Some(p)
    decreases |p|
  {
    if p != [] {
      if e != [] && e[0] == p[0] && p[0] != PERCENT && Encoded(e[1..], p[1..]) {
        DecodesEncoded(e[1..], p[1..]);
        assert p == [p[0]] + p[1..];
      } else {
        EscapeIsRead(e, p);
        DecodesEncoded(e[3 * |Utf8(PointOf(p))|..], p[PointWidth(p)..]);
        assert p == p[..PointWidth(p)] + p[PointWidth(p)..];
      }
    }
  }

  lemma {:induction false} DecodedIsEncoded(e: Text)
    requires Decode(e).Some?
    ensures Encoded(e, Decode(e).value)
    decreases |e|
  {
    if e != [] {
      var n := First(e).value.0;
      DecodedIsEncoded(e[n..]);
      var rest := Decode(e[n..]).value;
      if e[0] == PERCENT {
        ReadIsEscape(e, rest);
      } else {
        assert ([e[0]] + rest)[1..] == rest;
      }
    }
  }

  /** decodeURIComponent answers with a text if and only if it was given a percent-encoding of that text. */
  lemma DecodeIffEncoded(e: Text, p: Text)
    ensures Decode(e) == Some(p) <==> Encoded(e, p)
  {
    if Encoded(e, p) {
      DecodesEncoded(e, p);
    }
    if Decode(e) == Some(p) {
      DecodedIsEncoded(e);
    }
  }

  // ----- nested encodings ---------------------------------------------------------------------------------------

  /** Decoding k times, each time without an error, leads from p to q. */
  predicate Unwraps(decode: Text -> Option<Text>, p: Text, q: Text, k: nat)
    decreases k
  {
    if k == 0 then p == q else decode(p).Some? && Unwraps(decode, decode(p).value, q, k - 1)
  }

  ghost predicate UndoesOne(decode: Text -> Option<Text>) {
    forall e, p :: decode(e) == Some(p) <==> Encoded(e, p)
  }

  /** Decoding k times undoes k encodings, and only those. */
  lemma {:induction false} UnwrapsIffEncoded(decode: Text -> Option<Text>, e: Text, p: Text, k: nat)
    requires UndoesOne(decode)
    ensures Unwraps(decode, e, p, k) <==> EncodedTimes(e, p, k)
    decreases k
  {
    if k > 0 {
      if Unwraps(decode, e, p, k) {
        assert Encoded(e, decode(e).value);
        UnwrapsIffEncoded(decode, decode(e).value, p, k - 1);
      }
      if EncodedTimes(e, p, k) {
        var m :| Encoded(e, m) && EncodedTimes(m, p, k - 1);
        UnwrapsIffEncoded(decode, m, p, k - 1);
      }
    }
  }

  lemma DecoderUndoesOne()
    ensures UndoesOne(Decoder())
  {
    forall e, p ensures Decode(e) == Some(p) <==> Encoded(e, p) {
      DecodeIffEncoded(e, p);
    }
  }

  ghost predicate Keeps(decode: Text -> Option<Text>, check: Text -> bool) {
    && (forall p: Text :: check(p) && decode(p).Some? ==> check(decode(p).value))
    && (forall p: Text :: PERCENT !in p ==> decode(p) == Some(p))
  }

  lemma {:induction false} PlainDecodes(p: Text)
    requires PERCENT !in p
    ensures Decode(p) == Some(p)
  {
    if p != [] {
      assert p[0] in p;
      PlainDecodes(p[1..]);
      assert p == [p[0]] + p[1..];
    }
  }

  lemma DecodeKeeps()
    ensures Keeps(Decoder(), Checker())
  {
    forall p: Text | HasInternal(p) && Decode(p).Some? ensures HasInternal(Decode(p).value) {
      DecodeKeepsInternal(p);
    }
    forall p: Text | PERCENT !in p ensures Decode(p) == Some(p) {
      PlainDecodes(p);
    }
  }

  /** What checks in plain sight is caught, whatever the passes make of the rest. */
  lemma {:induction false} PlainIsCaught(decode: Text -> Option<Text>, check: Text -> bool, raw: Text -> bool, p: Text,
                                         passes: nat)
    requires Keeps(decode, check) && check(p)
    ensures CaughtBy(decode, check, raw, p, passes)
    decreases passes
  {
    if passes > 0 && PERCENT in p && decode(p).Some? {
      PlainIsCaught(decode, check, raw, decode(p).value, passes - 1);
    }
  }

  lemma {:induction false} PlainUnwraps(decode: Text -> Option<Text>, check: Text -> bool, p: Text, q: Text, k: nat)
    requires Keeps(decode, check) && PERCENT !in p && Unwraps(decode, p, q, k)
    ensures p == q
    decreases k
  {
    if k > 0 {
      PlainUnwraps(decode, check, p, q, k - 1);
    }
  }

  lemma {:induction false} WrappedIsCaught(decode: Text -> Option<Text>, check: Text -> bool, raw: Text -> bool,
                                           p: Text, q: Text, k: nat, passes: nat)
    requires Keeps(decode, check) && k <= passes && Unwraps(decode, p, q, k) && check(q)
    ensures CaughtBy(decode, check, raw, p, passes)
    decreases passes
  {
    if PERCENT !in p {
      PlainUnwraps(decode, check, p, q, k);
      PlainIsCaught(decode, check, raw, p, passes);
    } else if k > 0 {
      WrappedIsCaught(decode, check, raw, decode(p).value, q, k - 1, passes - 1);
    } else {
      PlainIsCaught(decode, check, raw, p, passes);
    }
  }

  /**
   * A path with an internal segment is caught however it is percent-encoded, up to three times
   * over, and whether or not it decodes further.
   */
  lemma NestedIsCaught(e: Text, p: Text, k: nat)
    requires k <= 3 && EncodedTimes(e, p, k) && HasInternal(p)
    ensures Caught(e, MAX_DECODE_PASSES)
  {
    DecodeKeeps();
    DecoderUndoesOne();
    UnwrapsIffEncoded(Decoder(), e, p, k);
    WrappedIsCaught(Decoder(), Checker(), RawChecker(), e, p, k, MAX_DECODE_PASSES);
  }

  lemma {:induction false} CaughtUnwraps(decode: Text -> Option<Text>, check: Text -> bool, raw: Text -> bool, p: Text,
                                         passes: nat)
    requires CaughtBy(decode, check, raw, p, passes)
    ensures exists q, k: nat {:trigger Unwraps(decode, p, q, k)} ::
              k <= passes && Unwraps(decode, p, q, k) && (check(q) || (k < passes && decode(q).None? && raw(q)))
    decreases passes
  {
    if passes > 0 && PERCENT in p && decode(p).Some? {
      CaughtUnwraps(decode, check, raw, decode(p).value, passes - 1);
      var q, k: nat :| k <= passes - 1 && Unwraps(decode, decode(p).value, q, k)
          && (check(q) || (k < passes - 1 && decode(q).None? && raw(q)));
      assert Unwraps(decode, p, q, k + 1);
    } else {
      assert Unwraps(decode, p, p, 0);
    }
  }

  lemma {:induction false} RawIsCaught(decode: Text -> Option<Text>, check: Text -> bool, raw: Text -> bool,
                                       p: Text, q: Text, k: nat, passes: nat)
    requires Keeps(decode, check) && k < passes && Unwraps(decode, p, q, k) && decode(q).None? && raw(q)
    ensures CaughtBy(decode, check, raw, p, passes)
    decreases passes
  {
    if PERCENT !in p {
      PlainUnwraps(decode, check, p, q, k);
    } else if k > 0 {
      RawIsCaught(decode, check, raw, decode(p).value, q, k - 1, passes - 1);
    }
  }

  /** A path that is no percent-encoding of anything and looks internal as it is. */
  ghost predicate LooksInternal(p: Text) {
    (forall q :: !Encoded(p, q)) && RawInternal(p)
  }

  lemma LooksIffRaw(p: Text)
    ensures LooksInternal(p) <==> Decode(p).None? && RawInternal(p)
  {
    if Decode(p).Some? {
      DecodedIsEncoded(p);
    } else {
      forall q ensures !Encoded(p, q) {
        DecodeIffEncoded(p, q);
      }
    }
  }

  /** An encoding of an internal path, or of one that will not decode and looks internal; that takes a pass more. */
  ghost predicate Hides(e: Text, p: Text, k: nat, passes: nat) {
    k <= passes && EncodedTimes(e, p, k) && (HasInternal(p) || (k < passes && LooksInternal(p)))
  }

  /** Such paths are caught, and no others. */
  lemma CaughtIff(e: Text)
    ensures Caught(e, MAX_DECODE_PASSES) <==> exists p, k: nat :: Hides(e, p, k, MAX_DECODE_PASSES)
  {
    if Caught(e, MAX_DECODE_PASSES) {
      CaughtHides(e);
    }
    if p, k: nat :| Hides(e, p, k, MAX_DECODE_PASSES) {
      HiddenIsCaught(e, p, k);
    }
  }

  lemma CaughtHides(e: Text)
    requires Caught(e, MAX_DECODE_PASSES)
    ensures exists p, k: nat :: Hides(e, p, k, MAX_DECODE_PASSES)
  {
    CaughtUnwraps(Decoder(), Checker(), RawChecker(), e, MAX_DECODE_PASSES);
    var p, k: nat :| k <= MAX_DECODE_PASSES && Unwraps(Decoder(), e, p, k)
                     && (HasInternal(p) || (k < MAX_DECODE_PASSES && Decode(p).None? && RawInternal(p)));
    DecoderUndoesOne();
    UnwrapsIffEncoded(Decoder(), e, p, k);
    LooksIffRaw(p);
    assert Hides(e, p, k, MAX_DECODE_PASSES);
  }

  lemma HiddenIsCaught(e: Text, p: Text, k: nat)
    requires Hides(e, p, k, MAX_DECODE_PASSES)
    ensures Caught(e, MAX_DECODE_PASSES)
  {
    if HasInternal(p) {
      NestedIsCaught(e, p, k);
    } else {
      DecodeKeeps();
      DecoderUndoesOne();
      UnwrapsIffEncoded(Decoder(), e, p, k);
      LooksIffRaw(p);
      RawIsCaught(Decoder(), Checker(), RawChecker(), e, p, k, MAX_DECODE_PASSES);
    }
  }
}
