/**
 * Why marked content nests only when every '<' before its marks is closed: an inserted tag closes one
 * that nothing closed, and what was one tag becomes a part of another (markBlanks and
 * blankMarksToTags in packages/shared/src/blanks.ts).
 */
module BlankUnclosed {
  import opened BlankMarker
  import opened BlankNesting
  import opened BlankRanges
  import opened Markup
  import opened Options
  import opened Spans
  import opened Units

  /** A tag of HTML with neither bracket inside. */
  predicate IsPlainTag(o: Text) {
    && |o| > 1 && o[0] == '<' as int && o[|o| - 1] == '>' as int
    && forall i :: 0 < i < |o| - 1 ==> o[i] != '<' as int && o[i] != '>' as int
  }

  /** The first '<' that has no '>' after it. */
  predicate FirstUnclosed(s: Text, j: nat) {
    j < |s| && s[j] == '<' as int && NoGt(s[j..]) && ClosedTo(s, j)
  }

  lemma {:induction false} UnclosedHasFirst(s: Text, end: nat)
    requires end <= |s| && !ClosedTo(s, end)
    ensures exists j: nat :: j < end && FirstUnclosed(s, j)
    decreases end
  {
    if !ClosedTo(s, end - 1) {
      UnclosedHasFirst(s, end - 1);
      var j: nat :| j < end - 1 && FirstUnclosed(s, j);
      assert j < end;
    } else {
      assert FirstUnclosed(s, end - 1);
    }
  }

  // ----- what the reader makes of an unclosed '<' -------------------------------------------------------

  lemma NoGtTail(u: Text, n: nat)
    requires n <= |u| && NoGt(u[n..])
    ensures forall i :: n <= i < |u| ==> u[i] != '>' as int
  {
    forall i | n <= i < |u| ensures u[i] != '>' as int {
      assert u[n..][i - n] == u[i];
    }
  }

  lemma WrittenIsShort(u: Text, n: nat)
    requires u != [] && n < |u| && u[n] == '<' as int && NoGt(u[n..])
    ensures Head(true, u).len <= n || n == 0
  {
    NoGtTail(u, n);
  }

  lemma {:induction false} ShortTokensReach(row: seq<Token>, i: nat, j: nat)
    requires IsRow(row) && i <= j <= |row| && forall k :: 0 <= k < j ==> row[k].len <= j - k
    ensures Reaches(row, i, j)
    decreases |row| - i
  {
    if i < j {
      ShortTokensReach(row, i + row[i].len, j);
    }
  }

  /** No token of the content reaches across it. */
  lemma UnclosedIsReached(s: Text, i: nat, j: nat)
    requires i <= j < |s| && s[j] == '<' as int && NoGt(s[j..])
    ensures Reaches(Row(true, s), i, j)
  {
    forall k | 0 <= k < j ensures Row(true, s)[k].len <= j - k {
      assert s[k..][j - k..] == s[j..] && s[k..][j - k] == s[j];
      WrittenIsShort(s[k..], j - k);
    }
    ShortTokensReach(Row(true, s), i, j);
  }

  /** In the content no tag follows it. */
  lemma {:induction false} NoTagsAfter(t: Text)
    requires Unmarked(t) && NoGt(t)
    ensures Tags(Reader(true), t) == []
    decreases |t|
  {
    if t != [] {
      var n := Head(true, t).len;
      assert Reader(true)(t) == Head(true, t);
      assert TagLen(t).None?;
      NoGtFrom(t, 0, n);
      NoTagsAfter(t[n..]);
    }
  }

  lemma PlainTagIsTag(o: Text)
    requires IsPlainTag(o)
    ensures IsTagText(true, o) && !NoGt(o) && !IsEntityUnit(o[0])
  {
    assert o[|o| - 1] == '>' as int;
  }

  /** With a tag put in after it, the reader takes both for one tag. */
  lemma SwallowedLen(u: Text, tag: Text, x: Text)
    requires u != [] && u[0] == '<' as int && NoGt(u) && IsPlainTag(tag)
    ensures Reader(true)(u + tag + x).len == |u + tag| && Reader(true)(u + tag + x).kind == Tag
  {
    var o := u + tag;
    assert NoGt(o[..|o| - 1]);
    TagTextLen(o, x);
    assert (o + x)[0] == '<' as int;
  }

  lemma Swallows(u: Text, tag: Text, x: Text)
    requires u != [] && u[0] == '<' as int && NoGt(u) && IsPlainTag(tag)
    ensures Tags(Reader(true), u + (tag + x)) == [u + tag] + Tags(Reader(true), x)
  {
    SwallowedLen(u, tag, x);
    assert u + (tag + x) == u + tag + x;
    assert (u + tag + x)[|u + tag|..] == x && (u + tag + x)[..|u + tag|] == u + tag;
  }

  lemma SwallowedIsNeither(u: Text, tag: Text, o: Text)
    requires u != [] && IsPlainTag(tag) && IsPlainTag(o)
    ensures u + tag != o
  {
    assert (u + tag)[|u|] == '<' as int;
  }

  // ----- the tags of marked content, with one swallowed ---------------------------------------------------

  /** The text reads as other tags than the content does: more often than there, `x` is one. */
  ghost predicate HasMore(a: seq<Text>, b: seq<Text>, x: Text) {
    multiset(a)[x] > multiset(b)[x]
  }

  lemma MoreOfOne(before: seq<Text>, x: Text, rest: seq<Text>)
    ensures HasMore(before + ([x] + rest), before + [], x)
  {
    assert before + [] == before;
  }

  lemma MoreAfter(before: seq<Text>, middle: seq<Text>, a: seq<Text>, b: seq<Text>, x: Text)
    requires HasMore(a, b, x)
    ensures HasMore(before + (middle + a), before + b, x)
  {
  }

  /** Tags up to an unclosed '<' are read as in the content, whatever starts there. */
  lemma TagsUpTo(s: Text, i: nat, j: nat, w: Text)
    requires Unmarked(s) && i <= j && FirstUnclosed(s, j) && w != [] && w[0] == '<' as int
    ensures Reaches(Row(true, s), i, j)
    ensures Tags(Reader(true), s[i..j] + w) == TagsTo(Row(true, s), s, i, j) + Tags(Reader(true), w)
    ensures Tags(Reader(true), s[i..]) == TagsTo(Row(true, s), s, i, j) + []
  {
    var row := Row(true, s);
    UnclosedIsReached(s, i, j);
    ReaderReads(true, s);
    AlikeUpTo(s, j, w);
    TagsSplit(Reader(true), row, s, i, j, w);
    TagsFrom(Reader(true), row, s, i, j);
    NoTagsAfter(s[j..]);
  }

  lemma AlikeUpTo(s: Text, to: nat, w: Text)
    requires Unmarked(s) && to <= |s| && ClosedTo(s, to) && w != [] && w[0] == '<' as int
    ensures ReadsAlike(Reader(true), Row(true, s), s, to, w)
  {
    var gt: Text := ['>' as int];
    assert gt[0] == '>' as int;
    InsertedReadsAlike(true, s, to, gt, gt, w);
  }

  lemma ClosedLess(s: Text, i: nat, j: nat)
    requires i <= j <= |s| && ClosedTo(s, j)
    ensures ClosedTo(s, i)
  {
  }

  lemma CutText(s: Text, i: nat, j: nat, k: nat, w: Text)
    requires i <= j <= k <= |s|
    ensures s[i..k] + w == s[i..j] + (s[j..k] + w)
  {
  }

  lemma NoGtPart(s: Text, j: nat, k: nat)
    requires j < k <= |s| && NoGt(s[j..])
    ensures NoGt(s[j..k])
  {
    forall i | 0 <= i < k - j ensures s[j..k][i] != '>' as int {
      assert s[j..k][i] == s[j..][i];
    }
  }

  /** The '<' stands before the first range: the range's opening tag is swallowed. */
  lemma OpenSwallowed(s: Text, kept: seq<Span>, at: nat, j: nat, open: Text, close: Text) returns (x: Text)
    requires Unmarked(s) && InOrder(kept, at, |s|) && at <= |s| && kept != []
    requires at <= j < kept[0].start && FirstUnclosed(s, j) && IsPlainTag(open) && IsPlainTag(close)
    ensures x != open && x != close
    ensures HasMore(Tags(Reader(true), Inserted(s, kept, at, open, close)), Tags(Reader(true), s[at..]), x)
  {
    var from := kept[0].start;
    var u, w := s[j..from], FromOpen(s, kept, at, open, close);
    var rest := s[from..kept[0].end] + FromClose(s, kept, at, open, close);
    InsertedParts(s, kept, at, open, close);
    CutText(s, at, j, from, w);
    TagsUpTo(s, at, j, u + w);
    NoGtPart(s, j, from);
    Swallows(u, open, rest);
    x := u + open;
    SwallowedIsNeither(u, open, open);
    SwallowedIsNeither(u, open, close);
    MoreOfOne(TagsTo(Row(true, s), s, at, j), x, Tags(Reader(true), rest));
  }

  /** It stands in the first range: the range's closing tag is. */
  lemma CloseSwallowed(s: Text, kept: seq<Span>, at: nat, j: nat, open: Text, close: Text) returns (x: Text)
    requires Unmarked(s) && InOrder(kept, at, |s|) && at <= |s| && kept != []
    requires kept[0].start <= j < kept[0].end && FirstUnclosed(s, j) && IsPlainTag(open) && IsPlainTag(close)
    requires AllText(Row(true, s), kept) && Reaches(Row(true, s), 0, at)
    ensures x != open && x != close
    ensures HasMore(Tags(Reader(true), Inserted(s, kept, at, open, close)), Tags(Reader(true), s[at..]), x)
  {
    var row, from, to := Row(true, s), kept[0].start, kept[0].end;
    InOrderTail(kept, at, |s|);
    var rest := Inserted(s, kept[1..], to, open, close);
    var u, w := s[j..to], close + rest;
    x := u + close;
    RangeBounds(row, s, kept, at);
    InsertedParts(s, kept, at, open, close);
    ReaderReads(true, s);
    TagsBeforeRange(s, at, from, open, s[from..to] + w);
    CutText(s, from, j, to, w);
    TagsUpTo(s, from, j, u + w);
    NoGtPart(s, j, to);
    Swallows(u, close, rest);
    SwallowedIsNeither(u, close, open);
    SwallowedIsNeither(u, close, close);
    MoreOfOne(TagsTo(row, s, from, j), x, Tags(Reader(true), rest));
    TagsFrom(Reader(true), row, s, at, from);
    MoreAfter(TagsTo(row, s, at, from), [open], Tags(Reader(true), s[from..to] + w), Tags(Reader(true), s[from..]), x);
  }

  lemma TagsBeforeRange(s: Text, at: nat, from: nat, open: Text, x: Text)
    requires Unmarked(s) && from <= |s| && ClosedTo(s, from) && IsPlainTag(open) && Reaches(Row(true, s), at, from)
    ensures at <= from
    ensures Tags(Reader(true), s[at..from] + (open + x))
         == TagsTo(Row(true, s), s, at, from) + ([open] + Tags(Reader(true), x))
  {
    ReachesForward(Row(true, s), at, from);
    PlainTagIsTag(open);
    AlikeUpTo(s, from, open + x);
    TagsSplit(Reader(true), Row(true, s), s, at, from, open + x);
    forall y ensures Reader(true)(open + y).len == |open| && Reader(true)(open + y).kind == Tag {
      TagTextReads(true, open, y);
    }
    TagThenRest(Reader(true), open, x);
  }

  /** In marked content some tag, neither of the two put in, is read more often than in the content. */
  lemma {:induction false} SomeSwallowed(s: Text, kept: seq<Span>, at: nat, j: nat, open: Text, close: Text)
    returns (x: Text)
    requires Unmarked(s) && InOrder(kept, at, |s|) && at <= |s|
    requires at <= j < LastEnd(kept, at) && FirstUnclosed(s, j) && IsPlainTag(open) && IsPlainTag(close)
    requires AllText(Row(true, s), kept) && Reaches(Row(true, s), 0, at)
    ensures x != open && x != close
    ensures HasMore(Tags(Reader(true), Inserted(s, kept, at, open, close)), Tags(Reader(true), s[at..]), x)
    decreases kept
  {
    if j < kept[0].start {
      x := OpenSwallowed(s, kept, at, j, open, close);
    } else if j < kept[0].end {
      x := CloseSwallowed(s, kept, at, j, open, close);
    } else {
      var row, from, to := Row(true, s), kept[0].start, kept[0].end;
      RangeBounds(row, s, kept, at);
      x := SomeSwallowed(s, kept[1..], to, j, open, close);
      ClosedLess(s, to, j);
      TagsAroundRange(s, kept, at, open, close);
      ReaderReads(true, s);
      TagsOfContent(Reader(true), row, s, kept, at);
      MoreAfter(TagsTo(row, s, at, from), [open, close], Tags(Reader(true), Inserted(s, kept[1..], to, open, close)),
                Tags(Reader(true), s[to..]), x);
    }
  }

  lemma TagsAroundRange(s: Text, kept: seq<Span>, at: nat, open: Text, close: Text)
    requires Unmarked(s) && InOrder(kept, at, |s|) && at <= |s| && kept != []
    requires AllText(Row(true, s), kept) && Reaches(Row(true, s), 0, at)
    requires ClosedTo(s, kept[0].end) && IsPlainTag(open) && IsPlainTag(close)
    ensures InOrder(kept[1..], kept[0].end, |s|) && Reaches(Row(true, s), at, kept[0].start)
    ensures Tags(Reader(true), Inserted(s, kept, at, open, close))
         == TagsTo(Row(true, s), s, at, kept[0].start)
            + ([open, close] + Tags(Reader(true), Inserted(s, kept[1..], kept[0].end, open, close)))
  {
    PlainTagIsTag(open);
    PlainTagIsTag(close);
    FirstNotMisled(true, s, kept, at, open, close);
    forall y ensures Reader(true)(open + y).len == |open| && Reader(true)(open + y).kind == Tag {
      TagTextReads(true, open, y);
    }
    forall y ensures Reader(true)(close + y).len == |close| && Reader(true)(close + y).kind == Tag {
      TagTextReads(true, close, y);
    }
    TagsOfMarked(Reader(true), Row(true, s), s, kept, at, open, close);
  }

  // ----- other tags nest otherwise ------------------------------------------------------------------------

  function Weight(u: Use): int {
    match u
    case Opens(_) => 1
    case Closes(_) => -1
    case Stands => 0
  }

  /** How many more elements the tags open than they close. */
  function Balance(use: Text -> Use, tags: seq<Text>): (b: int)
    ensures -|tags| <= b <= |tags|
  {
    if tags == [] then 0 else Weight(use(tags[0])) + Balance(use, tags[1..])
  }

  /** So many elements of one name. */
  function Deep(k: nat): (stack: seq<Text>)
    ensures |stack| == k
  {
    seq(k, _ => [])
  }

  predicate HasOneName(u: Use) {
    u == Opens([]) || u == Closes([]) || u == Stands
  }

  /** With one name and enough elements open, tags nest, and their balance is all that counts. */
  lemma {:induction false} NestDeep(use: Text -> Use, tags: seq<Text>, k: nat)
    requires |tags| <= k && forall t :: HasOneName(use(t))
    ensures k + Balance(use, tags) >= 0 && Nest(use, tags, Deep(k)) == Some(Deep(k + Balance(use, tags)))
  {
    if tags != [] {
      assert HasOneName(use(tags[0]));
      assert [[]] + Deep(k) == Deep(k + 1);
      assert Deep(k)[1..] == Deep(k - 1);
      NestDeep(use, tags[1..], k + Weight(use(tags[0])));
    }
  }

  /** The two tags are those of one element, and `x`, when it is given, opens one too. */
  function UseOf(open: Text, close: Text, x: Option<Text>): Text -> Use {
    t => if t == open then Opens([]) else if t == close then Closes([]) else if x == Some(t) then Opens([]) else Stands
  }

  lemma {:induction false} BalanceCounts(open: Text, close: Text, x: Text, tags: seq<Text>)
    requires x != open && x != close
    ensures Balance(UseOf(open, close, Some(x)), tags) == Balance(UseOf(open, close, None), tags) + multiset(tags)[x]
  {
    if tags != [] {
      BalanceCounts(open, close, x, tags[1..]);
      CountFirst(tags, x);
      WeightsDiffer(open, close, x, tags[0]);
    }
  }

  lemma CountFirst(tags: seq<Text>, x: Text)
    requires tags != []
    ensures multiset(tags)[x] == multiset(tags[1..])[x] + if tags[0] == x then 1 else 0
  {
    assert tags == [tags[0]] + tags[1..];
  }

  lemma WeightsDiffer(open: Text, close: Text, x: Text, t: Text)
    requires x != open && x != close
    ensures Weight(UseOf(open, close, Some(x))(t)) == Weight(UseOf(open, close, None)(t)) + if t == x then 1 else 0
  {
  }

  predicate SameUnder(use: Text -> Use, stack: seq<Text>, open: Text, close: Text, a: seq<Text>, b: seq<Text>) {
    use(open).Opens? && use(close) == Closes(use(open).name) ==> Nest(use, a, stack) == Nest(use, b, stack)
  }

  /** The tags nest alike, whatever they mean, when the two are those of one element. */
  ghost predicate NestAlike(open: Text, close: Text, a: seq<Text>, b: seq<Text>) {
    forall use: Text -> Use, stack: seq<Text> :: SameUnder(use, stack, open, close, a, b)
  }

  lemma AlikeBalances(open: Text, close: Text, x: Option<Text>, a: seq<Text>, b: seq<Text>)
    requires open != close && NestAlike(open, close, a, b)
    ensures Balance(UseOf(open, close, x), a) == Balance(UseOf(open, close, x), b)
  {
    var use, k := UseOf(open, close, x), |a| + |b|;
    NestDeep(use, a, k);
    NestDeep(use, b, k);
    assert SameUnder(use, Deep(k), open, close, a, b);
  }

  lemma MoreIsNotAlike(open: Text, close: Text, a: seq<Text>, b: seq<Text>, x: Text)
    requires open != close && x != open && x != close && HasMore(a, b, x)
    ensures !NestAlike(open, close, a, b)
  {
    if NestAlike(open, close, a, b) {
      AlikeBalances(open, close, None, a, b);
      AlikeBalances(open, close, Some(x), a, b);
      BalanceCounts(open, close, x, a);
      BalanceCounts(open, close, x, b);
      assert false;
    }
  }

  /**
   * HTML content with the two tags of an element put in around its ranges nests as the content does,
   * whatever its tags mean, if and only if every '<' before the end of the last range is closed.
   */
  lemma NestsIffClosed(s: Text, kept: seq<Span>, open: Text, close: Text)
    requires Unmarked(s) && IsHtml(s) && AreMarks(s, kept) && IsPlainTag(open) && IsPlainTag(close) && open != close
    ensures LastEnd(kept, 0) <= |s|
    ensures NestAlike(open, close, Tags(Reader(true), Inserted(s, kept, 0, open, close)), Tags(Reader(true), s))
       <==> ClosedTo(s, LastEnd(kept, 0))
  {
    var a, b := Tags(Reader(true), Inserted(s, kept, 0, open, close)), Tags(Reader(true), s);
    if ClosedTo(s, LastEnd(kept, 0)) {
      PlainTagIsTag(open);
      PlainTagIsTag(close);
      forall use: Text -> Use, stack: seq<Text> ensures SameUnder(use, stack, open, close, a, b) {
        if use(open).Opens? && use(close) == Closes(use(open).name) {
          MarkupNests(s, kept, open, close, use, stack);
        }
      }
    } else {
      UnclosedHasFirst(s, LastEnd(kept, 0));
      var j: nat :| j < LastEnd(kept, 0) && FirstUnclosed(s, j);
      var x := SomeSwallowed(s, kept, 0, j, open, close);
      assert s[0..] == s;
      MoreIsNotAlike(open, close, a, b, x);
    }
  }

  // ----- one range after an unclosed '<' ------------------------------------------------------------------

  predicate NoLt(t: Text) {
    forall i :: 0 <= i < |t| ==> t[i] != '<' as int
  }

  /** Text without '<' has no tags, and a tag after it is read as it is. */
  lemma {:induction false} TagAfterText(t: Text, tag: Text, x: Text)
    requires Unmarked(t) && NoLt(t) && IsPlainTag(tag)
    ensures Tags(Reader(true), t + (tag + x)) == [tag] + Tags(Reader(true), x)
    decreases |t|
  {
    if t == [] {
      PlainTagIsTag(tag);
      assert t + (tag + x) == tag + x;
      forall y ensures Reader(true)(tag + y).len == |tag| && Reader(true)(tag + y).kind == Tag {
        TagTextReads(true, tag, y);
      }
      TagThenRest(Reader(true), tag, x);
    } else {
      var n := TextStep(t, tag + x);
      TagAfterText(t[n..], tag, x);
    }
  }

  lemma TextStep(t: Text, w: Text) returns (n: nat)
    requires t != [] && Unmarked(t) && NoLt(t) && w != [] && w[0] == '<' as int
    ensures 0 < n <= |t| && Tags(Reader(true), t + w) == Tags(Reader(true), t[n..] + w)
    ensures Unmarked(t[n..]) && NoLt(t[n..])
  {
    var u := t + w;
    assert u[0] == t[0] && u[|t|] == '<' as int;
    WrittenBefore(u, |t|);
    n := Head(true, u).len;
    assert u[n..] == t[n..] + w && Reader(true)(u) == Head(true, u);
  }

  lemma WrittenBefore(u: Text, n: nat)
    requires 0 < n < |u| && u[0] != '<' as int && u[n] == '<' as int
    ensures Head(true, u).kind == Written && Head(true, u).len <= n
  {
  }

  /** Tags that stand by themselves leave what is open as it is. */
  lemma {:induction false} StandingNest(use: Text -> Use, tags: seq<Text>, stack: seq<Text>)
    requires forall t :: t in tags ==> use(t) == Stands
    ensures Nest(use, tags, stack) == Some(stack)
  {
    if tags != [] {
      assert tags[0] in tags && forall t :: t in tags[1..] ==> t in tags;
      StandingNest(use, tags[1..], stack);
    }
  }

  /** With the first range's text free of '<', its opening tag alone is swallowed. */
  lemma TagsWithRanges(s: Text, kept: seq<Span>, j: nat, open: Text, close: Text) returns (rest: seq<Text>)
    requires Unmarked(s) && InOrder(kept, 0, |s|) && kept != [] && IsPlainTag(open) && IsPlainTag(close)
    requires FirstUnclosed(s, j) && j < kept[0].start && NoLt(s[kept[0].start..kept[0].end])
    ensures Reaches(Row(true, s), 0, j)
    ensures Tags(Reader(true), s) == TagsTo(Row(true, s), s, 0, j)
    ensures Tags(Reader(true), Inserted(s, kept, 0, open, close))
         == TagsTo(Row(true, s), s, 0, j) + ([s[j..kept[0].start] + open] + ([close] + rest))
  {
    InOrderTail(kept, 0, |s|);
    var u, text := s[j..kept[0].start], s[kept[0].start..kept[0].end];
    var after := Inserted(s, kept[1..], kept[0].end, open, close);
    rest := Tags(Reader(true), after);
    FirstRangeParts(s, kept, j, open, close);
    NoGtPart(s, j, kept[0].start);
    SwallowedFrom(s, j, u, open, text, close, after);
  }

  lemma SwallowedFrom(s: Text, j: nat, u: Text, open: Text, text: Text, close: Text, after: Text)
    requires Unmarked(s) && FirstUnclosed(s, j) && u != [] && u[0] == '<' as int && NoGt(u)
    requires IsPlainTag(open) && IsPlainTag(close) && Unmarked(text) && NoLt(text)
    ensures Reaches(Row(true, s), 0, j)
    ensures Tags(Reader(true), s) == TagsTo(Row(true, s), s, 0, j)
    ensures Tags(Reader(true), s[0..j] + (u + (open + (text + (close + after)))))
         == TagsTo(Row(true, s), s, 0, j) + ([u + open] + ([close] + Tags(Reader(true), after)))
  {
    var w := u + (open + (text + (close + after)));
    TagsUpTo(s, 0, j, w);
    SwallowsOne(u, open, text, close, after);
    assert s[0..] == s;
  }

  lemma FirstRangeParts(s: Text, kept: seq<Span>, j: nat, open: Text, close: Text)
    requires InOrder(kept, 0, |s|) && kept != [] && j < kept[0].start
    ensures InOrder(kept[1..], kept[0].end, |s|)
    ensures var after := Inserted(s, kept[1..], kept[0].end, open, close);
      Inserted(s, kept, 0, open, close)
      == s[0..j] + (s[j..kept[0].start] + (open + (s[kept[0].start..kept[0].end] + (close + after))))
  {
    InOrderTail(kept, 0, |s|);
    var after := Inserted(s, kept[1..], kept[0].end, open, close);
    InsertedParts(s, kept, 0, open, close);
    CutText(s, 0, j, kept[0].start, open + (s[kept[0].start..kept[0].end] + (close + after)));
  }

  lemma SwallowsOne(u: Text, open: Text, text: Text, close: Text, rest: Text)
    requires u != [] && u[0] == '<' as int && NoGt(u) && IsPlainTag(open) && IsPlainTag(close) && Unmarked(text)
        && NoLt(text)
    ensures Tags(Reader(true), u + (open + (text + (close + rest))))
        == [u + open] + ([close] + Tags(Reader(true), rest))
  {
    Swallows(u, open, text + (close + rest));
    TagAfterText(text, close, rest);
  }

  /**
   * Ranges after an unclosed '<', and no '<' in the first: the content nests, and the marked content
   * does not, for that range's opening tag is gone and its closing tag is left.
   */
  lemma FirstRangeUnnests(s: Text, kept: seq<Span>, j: nat, open: Text, close: Text, use: Text -> Use)
    requires Unmarked(s) && IsHtml(s) && AreMarks(s, kept) && kept != [] && IsPlainTag(open) && IsPlainTag(close)
    requires FirstUnclosed(s, j) && j < kept[0].start && NoLt(s[kept[0].start..kept[0].end])
    requires OthersStand(use, open, close)
    requires open !in Tags(Reader(true), s) && close !in Tags(Reader(true), s)
    ensures Nest(use, Tags(Reader(true), s), []) == Some([])
    ensures Nest(use, Tags(Reader(true), Inserted(s, kept, 0, open, close)), []) == None
  {
    var u := s[j..kept[0].start];
    var rest := TagsWithRanges(s, kept, j, open, close);
    SwallowedIsNeither(u, open, open);
    SwallowedIsNeither(u, open, close);
    LeftoverClose(use, open, close, Tags(Reader(true), s), u + open, rest);
  }

  /** Only the two tags of the element open and close anything. */
  ghost predicate OthersStand(use: Text -> Use, open: Text, close: Text) {
    && use(open).Opens? && use(close) == Closes(use(open).name)
    && forall t :: t != open && t != close ==> use(t) == Stands
  }

  lemma LeftoverClose(use: Text -> Use, open: Text, close: Text, before: seq<Text>, x: Text, rest: seq<Text>)
    requires OthersStand(use, open, close) && x != open && x != close && open !in before && close !in before
    ensures Nest(use, before, []) == Some([]) && Nest(use, before + ([x] + ([close] + rest)), []) == None
  {
    var left := [close] + rest;
    StandingNest(use, before, []);
    NestConcat(use, before, [x] + left, []);
    assert ([x] + left)[1..] == left && ([x] + left)[0] == x;
    assert left[0] == close && Nest(use, left, []) == None;
    assert Nest(use, [x] + left, []) == None;
  }
}
