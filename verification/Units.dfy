/**
 * Text as JavaScript has it: sequences of UTF-16 code units, with the character classes and the
 * small scans that the regular expressions of packages/shared/src/blanks.ts are made of.
 */
module Units {
  import opened Options

  type Unit = c: int | 0 <= c < 0x10000
  type Text = seq<Unit>

  datatype Span = Span(start: nat, end: nat)

  const NEWLINE: Unit := 10
  const UNDERSCORE: Unit := 95

  /** A literal as text; the literals of this project are ASCII. */
  function U(s: string): (t: Text)
    ensures |t| == |s|
  {
    seq(|s|, i requires 0 <= i < |s| => if s[i] as int < 0x10000 then s[i] as int else 0)
  }

  /** \s */
  predicate IsSpace(c: Unit) {
    9 <= c <= 13 || c == 32 || c == 0xA0 || c == 0x1680 || 0x2000 <= c <= 0x200A
    || c == 0x2028 || c == 0x2029 || c == 0x202F || c == 0x205F || c == 0x3000 || c == 0xFEFF
  }

  /** [^\S\n] */
  predicate IsBlankSpace(c: Unit) {
    IsSpace(c) && c != NEWLINE
  }

  predicate IsDigit(c: Unit) {
    48 <= c <= 57
  }

  predicate IsLetter(c: Unit) {
    65 <= c <= 90 || 97 <= c <= 122
  }

  predicate IsHexDigit(c: Unit) {
    IsDigit(c) || 65 <= c <= 70 || 97 <= c <= 102
  }

  /** \w */
  predicate IsWord(c: Unit) {
    IsLetter(c) || IsDigit(c) || c == UNDERSCORE
  }

  /** What ends a line for ^ and $ under the m flag. */
  predicate IsLineEnd(c: Unit) {
    c == NEWLINE || c == 13 || c == 0x2028 || c == 0x2029
  }

  function Lower(c: Unit): Unit {
    if 65 <= c <= 90 then c + 32 else c
  }

  function LowerAll(t: Text): (r: Text)
    ensures |r| == |t| && forall i :: 0 <= i < |t| ==> r[i] == Lower(t[i])
  {
    if t == [] then [] else [Lower(t[0])] + LowerAll(t[1..])
  }

  /** The lower-case ASCII word `w` stands at `at`, in any case. */
  predicate WordAt(t: Text, at: nat, w: Text) {
    at + |w| <= |t| && forall i :: 0 <= i < |w| ==> Lower(t[at + i]) == w[i]
  }

  /** \b at `at` */
  predicate WordBoundary(t: Text, at: nat)
    requires at <= |t|
  {
    (at > 0 && IsWord(t[at - 1])) != (at < |t| && IsWord(t[at]))
  }

  /** The end of the longest run of [^\S\n] from `at`. */
  function SkipBlank(t: Text, at: nat): (e: nat)
    requires at <= |t|
    ensures at <= e <= |t| && (forall i :: at <= i < e ==> IsBlankSpace(t[i]))
    ensures e == |t| || !IsBlankSpace(t[e])
    decreases |t| - at
  {
    if at < |t| && IsBlankSpace(t[at]) then SkipBlank(t, at + 1) else at
  }

  /** The end of \s* from `at`. */
  function SkipSpace(t: Text, at: nat): (e: nat)
    requires at <= |t|
    ensures at <= e <= |t|
    decreases |t| - at
  {
    if at < |t| && IsSpace(t[at]) then SkipSpace(t, at + 1) else at
  }

  /** The end of the longest run of underscores from `at`. */
  function RunEnd(t: Text, at: nat): (e: nat)
    requires at <= |t|
    ensures at <= e <= |t| && (forall i :: at <= i < e ==> t[i] == UNDERSCORE)
    ensures e == |t| || t[e] != UNDERSCORE
    decreases |t| - at
  {
    if at < |t| && t[at] == UNDERSCORE then RunEnd(t, at + 1) else at
  }

  /** The classes \d, [0-9a-f], [a-z] (any case) and \w. */
  datatype Class = Digit | Hex | Letter | Word

  predicate InClass(k: Class, c: Unit) {
    match k
    case Digit => IsDigit(c)
    case Hex => IsHexDigit(c)
    case Letter => IsLetter(c)
    case Word => IsWord(c)
  }

  /** The end of the longest run of the class from `at`. */
  function ClassEnd(k: Class, t: Text, at: nat): (e: nat)
    requires at <= |t|
    ensures at <= e <= |t| && (forall i :: at <= i < e ==> InClass(k, t[i]))
    ensures e == |t| || !InClass(k, t[e])
    decreases |t| - at
  {
    if at < |t| && InClass(k, t[at]) then ClassEnd(k, t, at + 1) else at
  }

  /** indexOf(c, at) */
  function IndexOf(t: Text, c: Unit, at: nat): (r: Option<nat>)
    requires at <= |t|
    ensures r.Some? ==> at <= r.value < |t| && t[r.value] == c && forall i :: at <= i < r.value ==> t[i] != c
    ensures r.None? ==> forall i :: at <= i < |t| ==> t[i] != c
    decreases |t| - at
  {
    if at == |t| then None else if t[at] == c then Some(at) else IndexOf(t, c, at + 1)
  }

  /** lineStartOf: just after the last newline before `at`. */
  function LineStart(t: Text, at: nat): (s: nat)
    requires at <= |t|
    ensures s <= at
  {
    if at == 0 || t[at - 1] == NEWLINE then at else LineStart(t, at - 1)
  }

  /** lineEndOf: the first newline from `at` on, or the end. */
  function LineEnd(t: Text, at: nat): (e: nat)
    requires at <= |t|
    ensures at <= e <= |t|
  {
    var nl := IndexOf(t, NEWLINE, at);
    if nl.Some? then nl.value else |t|
  }
}
