/**
 * Percent-encoded text, as section 2.1 of RFC 3986 and section 3 of RFC 3629 have it: what a text may
 * be written as, said without any decoder.
 */
module PercentEncoding {
  import opened Units

  const PERCENT: Unit := 37

  /** A hex digit, in either case. */
  predicate SpellsDigit(c: Unit, d: nat) {
    (d < 10 && c == 48 + d) || (10 <= d < 16 && (c == 55 + d || c == 87 + d))
  }

  /** The escape of the byte `b` stands at `at`. */
  predicate SpellsByte(e: Text, at: nat, b: nat) {
    at + 3 <= |e| && e[at] == PERCENT && b < 256 && SpellsDigit(e[at + 1], b / 16) && SpellsDigit(e[at + 2], b % 16)
  }

  /** The text starts with the escapes of the bytes. */
  predicate Spells(e: Text, bytes: seq<nat>) {
    3 * |bytes| <= |e| && forall k :: 0 <= k < |bytes| ==> SpellsByte(e, 3 * k, bytes[k])
  }

  function Utf8(code: nat): (bytes: seq<nat>)
    ensures 1 <= |bytes| <= 4
  {
    if code < 0x80 then [code]
    else if code < 0x800 then [0xC0 + code / 64, 0x80 + code % 64]
    else if code < 0x10000 then [0xE0 + code / 64 / 64, 0x80 + code / 64 % 64, 0x80 + code % 64]
    else [0xF0 + code / 64 / 64 / 64, 0x80 + code / 64 / 64 % 64, 0x80 + code / 64 % 64, 0x80 + code % 64]
  }

  predicate IsSurrogate(code: nat) {
    0xD800 <= code < 0xE000
  }

  /** The text starts with a surrogate pair. */
  predicate StartsWithPair(p: Text) {
    |p| > 1 && 0xD800 <= p[0] < 0xDC00 && 0xDC00 <= p[1] < 0xE000
  }

  /** How many units the first code point has. */
  function PointWidth(p: Text): (n: nat)
    requires p != []
    ensures 1 <= n <= |p| && n <= 2
  {
    if StartsWithPair(p) then 2 else 1
  }

  function PointOf(p: Text): (code: nat)
    requires p != []
    ensures code <= 0x10FFFF
  {
    var first: int := p[0];
    if StartsWithPair(p) then
      var second: int := p[1];
      0x10000 + (first - 0xD800) * 0x400 + (second - 0xDC00)
    else first
  }

  /** The first code point is written as the escapes of its bytes. */
  predicate EscapesPoint(e: Text, p: Text)
    requires p != []
  {
    !IsSurrogate(PointOf(p)) && Spells(e, Utf8(PointOf(p)))
  }

  /**
   * `e` is a percent-encoding of `p`: some code points of `p`, and every percent sign, are written as
   * escapes, and the other units as they are.
   */
  ghost predicate Encoded(e: Text, p: Text)
    decreases |p|
  {
    if p == [] then e == []
    else
      || (e != [] && e[0] == p[0] && p[0] != PERCENT && Encoded(e[1..], p[1..]))
      || (EscapesPoint(e, p) && Encoded(e[3 * |Utf8(PointOf(p))|..], p[PointWidth(p)..]))
  }

  /** `e` is `p` percent-encoded `k` times over. */
  ghost predicate EncodedTimes(e: Text, p: Text, k: nat)
    decreases k
  {
    if k == 0 then e == p else exists m :: Encoded(e, m) && EncodedTimes(m, p, k - 1)
  }
}
