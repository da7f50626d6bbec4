/**
 * The markup that marked blanks become nests as the content did (markBlanks and blankMarksToTags in
 * packages/shared/src/blanks.ts).
 */
module BlankNesting {
  import opened BlankMarker
  import opened BlankRanges
  import opened Markup
  import opened Options
  import opened Spans
  import opened Units

  // ----- the tags of a text ---------------------------------------------------------------------------

  /** The tags of a text, in order, for a reader of tokens. */
  function Tags(read: Text -> Token, s: Text): seq<Text>
    decreases |s|
  {
    if s == [] || read(s).len < 1 || read(s).len > |s| then []
    else TagOf(read(s), s) + Tags(read, s[read(s).len..])
  }

  function TagOf(h: Token, s: Text): seq<Text>
    requires h.len <= |s|
  {
    if h.kind == Tag then [s[..h.len]] else []
  }

  /** The tags among the tokens from i to j. */
  function TagsTo(row: seq<Token>, s: Text, i: nat, j: nat): seq<Text>
    requires IsRow(row) && |row| == |s| && Reaches(row, i, j)
    decreases |row| - i
  {
    if i == j then [] else TagOf(row[i], s[i..]) + TagsTo(row, s, i + row[i].len, j)
  }

  lemma {:induction false} NoTagsInText(row: seq<Token>, s: Text, i: nat, j: nat)
    requires IsRow(row) && |row| == |s| && TextRun(row, i, j)
    ensures Reaches(row, i, j) && TagsTo(row, s, i, j) == []
    decreases |row| - i
  {
    TextRunReaches(row, i, j);
    if i < j {
      NoTagsInText(row, s, i + row[i].len, j);
    }
  }

  /** Before `to`, the reader reads the same tokens when `w` follows as it does in the row. */
  ghost predicate ReadsAlike(read: Text -> Token, row: seq<Token>, s: Text, to: nat, w: Text)
    requires |row| == |s| && to <= |s|
  {
    forall j :: 0 <= j < to && row[j].len <= to - j ==> read(s[j..to] + w) == row[j]
  }

  lemma TagsStep(read: Text -> Token, h: Token, s: Text, i: nat, to: nat, w: Text)
    requires 1 <= h.len <= to - i && to <= |s| && read(s[i..to] + w) == h
    ensures Tags(read, s[i..to] + w) == TagOf(h, s[i..]) + Tags(read, s[i + h.len..to] + w)
  {
    var v := s[i..to] + w;
    assert v[h.len..] == s[i + h.len..to] + w;
    assert v[..h.len] == s[i..][..h.len];
  }

  lemma TagsToStep(row: seq<Token>, s: Text, i: nat, to: nat)
    requires IsRow(row) && |row| == |s| && Reaches(row, i, to) && i < to
    ensures i + row[i].len <= to <= |s| && Reaches(row, i + row[i].len, to)
    ensures TagsTo(row, s, i, to) == TagOf(row[i], s[i..]) + TagsTo(row, s, i + row[i].len, to)
  {
    ReachesForward(row, i + row[i].len, to);
  }

  lemma {:induction false} TagsSplit(read: Text -> Token, row: seq<Token>, s: Text, i: nat, to: nat, w: Text)
    requires IsRow(row) && |row| == |s| && Reaches(row, i, to) && to <= |s| && ReadsAlike(read, row, s, to, w)
    ensures Tags(read, s[i..to] + w) == TagsTo(row, s, i, to) + Tags(read, w)
    decreases |row| - i
  {
    if i == to {
      assert s[i..to] + w == w;
    } else {
      var next := i + row[i].len;
      TagsToStep(row, s, i, to);
      TagsSplit(read, row, s, next, to, w);
      TagsStep(read, row[i], s, i, to, w);
      Glue(Tags(read, s[i..to] + w), TagOf(row[i], s[i..]), Tags(read, s[next..to] + w),
           TagsTo(row, s, next, to), Tags(read, w), TagsTo(row, s, i, to));
    }
  }

  lemma Glue(all: seq<Text>, first: seq<Text>, rest: seq<Text>, middle: seq<Text>, last: seq<Text>, before: seq<Text>)
    requires all == first + rest && rest == middle + last && before == first + middle
    ensures all == before + last
  {
  }

  // ----- nesting ----------------------------------------------------------------------------------------

  /** What a tag does: opens or closes an element of a name, or stands by itself. */
  datatype Use = Opens(name: Text) | Closes(name: Text) | Stands

  /** The elements open after the tags, the innermost first; none when a tag closes the wrong one. */
  function Nest(use: Text -> Use, tags: seq<Text>, stack: seq<Text>): Option<seq<Text>> {
    if tags == [] then Some(stack)
    else match use(tags[0])
      case Opens(name) => Nest(use, tags[1..], [name] + stack)
      case Closes(name) => if stack != [] && stack[0] == name then Nest(use, tags[1..], stack[1..]) else None
      case Stands => Nest(use, tags[1..], stack)
  }

  function NestOn(use: Text -> Use, stack: Option<seq<Text>>, tags: seq<Text>): Option<seq<Text>> {
    if stack.Some? then Nest(use, tags, stack.value) else None
  }

  lemma {:induction false} NestConcat(use: Text -> Use, a: seq<Text>, b: seq<Text>, stack: seq<Text>)
    ensures Nest(use, a + b, stack) == NestOn(use, Nest(use, a, stack), b)
  {
    if a == [] {
      assert a + b == b;
    } else {
      assert (a + b)[1..] == a[1..] + b;
      match use(a[0])
      case Opens(name) => NestConcat(use, a[1..], b, [name] + stack);
      case Closes(name) =>
        if stack != [] && stack[0] == name {
          NestConcat(use, a[1..], b, stack[1..]);
        }
      case Stands => NestConcat(use, a[1..], b, stack);
    }
  }

  /** A pair of tags with nothing between them changes nothing. */
  lemma NestPair(use: Text -> Use, open: Text, close: Text, rest: seq<Text>, stack: seq<Text>)
    requires use(open).Opens? && use(close) == Closes(use(open).name)
    ensures Nest(use, [open, close] + rest, stack) == Nest(use, rest, stack)
  {
    var inner := [use(open).name] + stack;
    assert ([open, close] + rest)[1..] == [close] + rest;
    assert ([close] + rest)[1..] == rest;
    assert inner[1..] == stack;
    assert Nest(use, [close] + rest, inner) == Nest(use, rest, stack);
  }

  // ----- the tags of marked content ---------------------------------------------------------------------

  /** Whatever follows, the reader reads `o` as one tag. */
  ghost predicate ReadsAsTag(read: Text -> Token, o: Text) {
    o != [] && forall x: Text :: read(o + x).len == |o| && read(o + x).kind == Tag
  }

  lemma TagThenRest(read: Text -> Token, o: Text, x: Text)
    requires ReadsAsTag(read, o)
    ensures Tags(read, o + x) == [o] + Tags(read, x)
  {
    assert read(o + x).len == |o|;
    assert (o + x)[|o|..] == x && (o + x)[..|o|] == o;
  }

  /** The content after the first range, from its closing mark on. */
  function FromClose(s: Text, kept: seq<Span>, at: nat, open: Text, close: Text): Text
    requires InOrder(kept, at, |s|) && at <= |s| && kept != []
  {
    InOrderTail(kept, at, |s|);
    close + Inserted(s, kept[1..], kept[0].end, open, close)
  }

  /** The content from the first range's opening mark on. */
  function FromOpen(s: Text, kept: seq<Span>, at: nat, open: Text, close: Text): Text
    requires InOrder(kept, at, |s|) && at <= |s| && kept != []
  {
    open + (s[kept[0].start..kept[0].end] + FromClose(s, kept, at, open, close))
  }

  lemma InsertedParts(s: Text, kept: seq<Span>, at: nat, open: Text, close: Text)
    requires InOrder(kept, at, |s|) && at <= |s| && kept != []
    ensures Inserted(s, kept, at, open, close) == s[at..kept[0].start] + FromOpen(s, kept, at, open, close)
  {
    InOrderTail(kept, at, |s|);
    Around(s[at..kept[0].start], open, s[kept[0].start..kept[0].end], close,
           Inserted(s, kept[1..], kept[0].end, open, close));
  }

  /** Up to the end of the first range, the reader is not misled by what was inserted. */
  ghost predicate NotMisledAtFirst(read: Text -> Token, row: seq<Token>, s: Text, kept: seq<Span>, at: nat, open: Text,
                                   close: Text)
    requires InOrder(kept, at, |s|) && at <= |s| && |row| == |s| && kept != []
  {
    && ReadsAlike(read, row, s, kept[0].start, FromOpen(s, kept, at, open, close))
    && ReadsAlike(read, row, s, kept[0].end, FromClose(s, kept, at, open, close))
  }

  /** At each range from `at` on, it is not. */
  ghost predicate NotMisled(read: Text -> Token, row: seq<Token>, s: Text, kept: seq<Span>, at: nat, open: Text,
                            close: Text)
    requires InOrder(kept, at, |s|) && at <= |s| && |row| == |s|
    decreases kept
  {
    kept == [] || (
      && NotMisledAtFirst(read, row, s, kept, at, open, close)
      && (InOrderTail(kept, at, |s|); NotMisled(read, row, s, kept[1..], kept[0].end, open, close)))
  }

  /** The row is what the reader reads in the content itself. */
  ghost predicate Reads(read: Text -> Token, row: seq<Token>, s: Text) {
    IsRow(row) && |row| == |s| && forall j :: 0 <= j < |s| ==> read(s[j..]) == row[j]
  }

  lemma ReadsAlikeItself(read: Text -> Token, row: seq<Token>, s: Text, to: nat)
    requires Reads(read, row, s) && to <= |s|
    ensures ReadsAlike(read, row, s, to, s[to..])
  {
    forall j | 0 <= j < to ensures s[j..to] + s[to..] == s[j..] {
    }
  }

  /** The first range starts and ends between tokens, and holds no tag. */
  lemma RangeBounds(row: seq<Token>, s: Text, kept: seq<Span>, at: nat)
    requires IsRow(row) && |row| == |s| && InOrder(kept, at, |s|) && at <= |s| && kept != []
    requires AllText(row, kept) && Reaches(row, 0, at)
    ensures InOrder(kept[1..], kept[0].end, |s|) && AllText(row, kept[1..])
    ensures Reaches(row, at, kept[0].start) && Reaches(row, 0, kept[0].end)
    ensures Reaches(row, kept[0].start, kept[0].end) && TagsTo(row, s, kept[0].start, kept[0].end) == []
  {
    InOrderTail(kept, at, |s|);
    assert kept[0] in kept && IsTextRange(row, kept[0]);
    ReachesBetween(row, 0, at, kept[0].start);
    NoTagsInText(row, s, kept[0].start, kept[0].end);
    ReachesTrans(row, 0, kept[0].start, kept[0].end);
  }

  /** In marked content: the tags before the first range, a pair of tags, and the tags after it. */
  lemma TagsOfMarked(read: Text -> Token, row: seq<Token>, s: Text, kept: seq<Span>, at: nat, open: Text, close: Text)
    requires IsRow(row) && |row| == |s| && InOrder(kept, at, |s|) && at <= |s| && kept != []
    requires AllText(row, kept) && Reaches(row, 0, at) && NotMisledAtFirst(read, row, s, kept, at, open, close)
    requires ReadsAsTag(read, open) && ReadsAsTag(read, close)
    ensures InOrder(kept[1..], kept[0].end, |s|) && Reaches(row, at, kept[0].start)
    ensures Tags(read, Inserted(s, kept, at, open, close))
         == TagsTo(row, s, at, kept[0].start)
            + ([open, close] + Tags(read, Inserted(s, kept[1..], kept[0].end, open, close)))
  {
    var from, to := kept[0].start, kept[0].end;
    RangeBounds(row, s, kept, at);
    InsertedParts(s, kept, at, open, close);
    var rest := Inserted(s, kept[1..], to, open, close);
    TagsSplit(read, row, s, at, from, FromOpen(s, kept, at, open, close));
    TagThenRest(read, open, s[from..to] + FromClose(s, kept, at, open, close));
    TagsSplit(read, row, s, from, to, FromClose(s, kept, at, open, close));
    TagThenRest(read, close, rest);
    PairOfTags(open, close, Tags(read, rest));
  }

  lemma PairOfTags(open: Text, close: Text, rest: seq<Text>)
    ensures [open] + ([] + ([close] + rest)) == [open, close] + rest
  {
  }

  lemma TagsFrom(read: Text -> Token, row: seq<Token>, s: Text, i: nat, to: nat)
    requires Reads(read, row, s) && Reaches(row, i, to) && to <= |s|
    ensures i <= to && Tags(read, s[i..]) == TagsTo(row, s, i, to) + Tags(read, s[to..])
  {
    ReachesForward(row, i, to);
    ReadsAlikeItself(read, row, s, to);
    TagsSplit(read, row, s, i, to, s[to..]);
    CutAt(s, i, to);
  }

  lemma CutAt(s: Text, i: nat, to: nat)
    requires i <= to <= |s|
    ensures s[i..to] + s[to..] == s[i..]
  {
  }

  /** In the content itself: the tags before the first range, and the tags after it. */
  lemma TagsOfContent(read: Text -> Token, row: seq<Token>, s: Text, kept: seq<Span>, at: nat)
    requires Reads(read, row, s) && InOrder(kept, at, |s|) && at <= |s| && kept != []
    requires AllText(row, kept) && Reaches(row, 0, at)
    ensures Reaches(row, at, kept[0].start)
    ensures Tags(read, s[at..]) == TagsTo(row, s, at, kept[0].start) + Tags(read, s[kept[0].end..])
  {
    var from, to := kept[0].start, kept[0].end;
    RangeBounds(row, s, kept, at);
    TagsFrom(read, row, s, at, from);
    TagsFrom(read, row, s, from, to);
    assert [] + Tags(read, s[to..]) == Tags(read, s[to..]);
  }

  /** A reader that is not misled finds the marked content nested as the content is. */
  lemma {:induction false} MarkedNests(read: Text -> Token, row: seq<Token>, s: Text, kept: seq<Span>, at: nat,
                                       open: Text, close: Text, use: Text -> Use, stack: seq<Text>)
    requires Reads(read, row, s) && InOrder(kept, at, |s|) && at <= |s|
    requires AllText(row, kept) && Reaches(row, 0, at) && NotMisled(read, row, s, kept, at, open, close)
    requires ReadsAsTag(read, open) && ReadsAsTag(read, close)
    requires use(open).Opens? && use(close) == Closes(use(open).name)
    ensures Nest(use, Tags(read, Inserted(s, kept, at, open, close)), stack) == Nest(use, Tags(read, s[at..]), stack)
    decreases kept
  {
    if kept != [] {
      var from, to := kept[0].start, kept[0].end;
      RangeBounds(row, s, kept, at);
      TagsOfMarked(read, row, s, kept, at, open, close);
      TagsOfContent(read, row, s, kept, at);
      var before := TagsTo(row, s, at, from);
      var rest := Tags(read, Inserted(s, kept[1..], to, open, close));
      NestConcat(use, before, [open, close] + rest, stack);
      NestConcat(use, before, Tags(read, s[to..]), stack);
      var middle := Nest(use, before, stack);
      if middle.Some? {
        NestPair(use, open, close, rest, middle.value);
        MarkedNests(read, row, s, kept[1..], to, open, close, use, middle.value);
      }
    }
  }

  // ----- the reader of the draft's content ------------------------------------------------------------

  /** The reader of projectContent, which also reads a mark as a tag. */
  function ReadToken(html: bool, s: Text): (h: Token)
    ensures s != [] && !IsMark(s[0]) ==> h == Head(html, s)
    ensures s != [] && IsMark(s[0]) ==> h == Token(1, [], Tag)
  {
    if s == [] || IsMark(s[0]) then Token(1, [], Tag) else Head(html, s)
  }

  function Reader(html: bool): Text -> Token {
    s => ReadToken(html, s)
  }

  lemma ReaderReads(html: bool, s: Text)
    requires Unmarked(s)
    ensures Reads(Reader(html), Row(html, s), s)
  {
  }

  /** A mark, or a tag of HTML: '<', no other '>' but the last unit. */
  predicate IsTagText(html: bool, o: Text) {
    || (|o| == 1 && IsMark(o[0]))
    || (html && |o| > 1 && o[0] == '<' as int && o[|o| - 1] == '>' as int && NoGt(o[..|o| - 1]))
  }

  predicate NoGt(t: Text) {
    forall i :: 0 <= i < |t| ==> t[i] != '>' as int
  }

  lemma TagTextReads(html: bool, o: Text, x: Text)
    requires IsTagText(html, o)
    ensures Reader(html)(o + x).len == |o| && Reader(html)(o + x).kind == Tag
  {
    if !IsMark(o[0]) {
      TagTextLen(o, x);
    }
  }

  lemma TagTextLen(o: Text, x: Text)
    requires |o| > 1 && o[0] == '<' as int && o[|o| - 1] == '>' as int && NoGt(o[..|o| - 1])
    ensures TagLen(o + x) == Some(|o|)
  {
    var v := o + x;
    assert v[|o| - 1] == '>' as int;
    forall i | 0 <= i < |o| - 1 ensures v[i] != '>' as int {
      assert v[i] == o[..|o| - 1][i];
    }
  }

  /** Every '<' before `to` has a '>' somewhere after it. */
  predicate ClosedTo(s: Text, to: nat)
    requires to <= |s|
  {
    forall i :: 0 <= i < to && s[i] == '<' as int ==> !NoGt(s[i..])
  }

  /** Where the last range ends. */
  function LastEnd(kept: seq<Span>, at: nat): nat {
    if kept == [] then at else kept[|kept| - 1].end
  }

  lemma TagLenAgrees(u: Text, v: Text, m: nat)
    requires Agree(u, v, m) && 0 < m && (TagLen(u).Some? ==> TagLen(u).value <= m)
    requires u[0] == '<' as int && NoGt(u) ==> NoGt(v)
    ensures TagLen(v) == TagLen(u)
  {
  }

  /** A token is read the same when what follows it changes to a tag. */
  lemma HeadAgrees(html: bool, u: Text, v: Text, m: nat)
    requires Agree(u, v, m) && u != [] && m < |v| && !IsEntityUnit(v[m]) && Head(html, u).len <= m
    requires html && u[0] == '<' as int && NoGt(u) ==> NoGt(v)
    ensures Head(html, v) == Head(html, u)
  {
    if html {
      TagLenAgrees(u, v, m);
      if TagLen(u).None? {
        EntityAtAgrees(u, v, m);
      } else {
        assert u[..TagLen(u).value] == v[..TagLen(u).value];
      }
    }
  }

  // ----- what is inserted misleads no one --------------------------------------------------------------

  lemma {:induction false} InsertedNoGt(s: Text, kept: seq<Span>, at: nat, open: Text, close: Text)
    requires InOrder(kept, at, |s|) && at <= |s| && NoGt(s[at..]) && NoGt(open) && NoGt(close)
    ensures NoGt(Inserted(s, kept, at, open, close))
    decreases kept
  {
    if kept != [] {
      InOrderTail(kept, at, |s|);
      NoGtFrom(s, at, kept[0].end);
      InsertedNoGt(s, kept[1..], kept[0].end, open, close);
    }
  }

  lemma NoGtFrom(s: Text, i: nat, j: nat)
    requires i <= j <= |s| && NoGt(s[i..])
    ensures NoGt(s[j..])
  {
    forall k | 0 <= k < |s[j..]| ensures s[j..][k] != '>' as int {
      assert s[j..][k] == s[i..][k + j - i];
    }
  }

  /** Every '<' before the last range's end is closed, or what is inserted closes none. */
  predicate Harmless(html: bool, s: Text, to: nat, open: Text, close: Text)
    requires to <= |s|
  {
    html ==> ClosedTo(s, to) || (NoGt(open) && NoGt(close))
  }

  /** Text that starts with a tag misleads no reader of the content before it. */
  lemma InsertedReadsAlike(html: bool, s: Text, to: nat, open: Text, close: Text, w: Text)
    requires Unmarked(s) && to <= |s| && Harmless(html, s, to, open, close)
    requires w != [] && !IsEntityUnit(w[0])
    requires NoGt(s[to..]) && NoGt(open) && NoGt(close) ==> NoGt(w)
    ensures ReadsAlike(Reader(html), Row(html, s), s, to, w)
  {
    forall j | 0 <= j < to && Row(html, s)[j].len <= to - j ensures Reader(html)(s[j..to] + w) == Row(html, s)[j] {
      InsertedReadsAt(html, s, to, open, close, w, j);
    }
  }

  lemma InsertedReadsAt(html: bool, s: Text, to: nat, open: Text, close: Text, w: Text, j: nat)
    requires Unmarked(s) && to <= |s| && Harmless(html, s, to, open, close)
    requires w != [] && !IsEntityUnit(w[0])
    requires NoGt(s[to..]) && NoGt(open) && NoGt(close) ==> NoGt(w)
    requires j < to && Head(html, s[j..]).len <= to - j
    ensures Reader(html)(s[j..to] + w) == Head(html, s[j..])
  {
    var u, v := s[j..], s[j..to] + w;
    if html && u[0] == '<' as int && NoGt(u) {
      assert !ClosedTo(s, to);
      NoGtFrom(s, j, to);
      assert NoGt(s[j..to]) by {
        assert forall k :: 0 <= k < to - j ==> s[j..to][k] == u[k];
      }
    }
    HeadAgrees(html, u, v, to - j);
  }

  lemma FirstNotMisled(html: bool, s: Text, kept: seq<Span>, at: nat, open: Text, close: Text)
    requires Unmarked(s) && InOrder(kept, at, |s|) && at <= |s| && kept != []
    requires Harmless(html, s, kept[0].end, open, close)
    requires IsTagText(html, open) && IsTagText(html, close)
    ensures NotMisledAtFirst(Reader(html), Row(html, s), s, kept, at, open, close)
  {
    var from, to := kept[0].start, kept[0].end;
    InOrderTail(kept, at, |s|);
    if NoGt(s[to..]) && NoGt(open) && NoGt(close) {
      InsertedNoGt(s, kept[1..], to, open, close);
    }
    InsertedReadsAlike(html, s, to, open, close, FromClose(s, kept, at, open, close));
    if NoGt(s[from..]) && NoGt(open) && NoGt(close) {
      NoGtFrom(s, from, to);
      assert forall k :: 0 <= k < to - from ==> s[from..to][k] == s[from..][k];
    }
    InsertedReadsAlike(html, s, from, open, close, FromOpen(s, kept, at, open, close));
  }

  lemma {:induction false} ReaderNotMisled(html: bool, s: Text, kept: seq<Span>, at: nat, open: Text, close: Text)
    requires Unmarked(s) && InOrder(kept, at, |s|) && at <= |s| && LastEnd(kept, at) <= |s|
    requires Harmless(html, s, LastEnd(kept, at), open, close)
    requires IsTagText(html, open) && IsTagText(html, close)
    ensures NotMisled(Reader(html), Row(html, s), s, kept, at, open, close)
    decreases kept
  {
    if kept != [] {
      FirstNotMisled(html, s, kept, at, open, close);
      InOrderTail(kept, at, |s|);
      ReaderNotMisled(html, s, kept[1..], kept[0].end, open, close);
    }
  }

  /**
   * Marked content nests as the content does, whatever its tags mean, when the marks count as the tags
   * of one element. Put in real tags for the marks and the same holds, if every '<' before the last
   * range's end is closed.
   */
  lemma MarkupNests(s: Text, kept: seq<Span>, open: Text, close: Text, use: Text -> Use, stack: seq<Text>)
    requires Unmarked(s) && AreMarks(s, kept)
    requires IsTagText(IsHtml(s), open) && IsTagText(IsHtml(s), close)
    requires Harmless(IsHtml(s), s, LastEnd(kept, 0), open, close)
    requires use(open).Opens? && use(close) == Closes(use(open).name)
    ensures Nest(use, Tags(Reader(IsHtml(s)), Inserted(s, kept, 0, open, close)), stack)
         == Nest(use, Tags(Reader(IsHtml(s)), s), stack)
  {
    var html := IsHtml(s);
    ReaderReads(html, s);
    ReaderNotMisled(html, s, kept, 0, open, close);
    forall x ensures Reader(html)(open + x).len == |open| && Reader(html)(open + x).kind == Tag {
      TagTextReads(html, open, x);
    }
    forall x ensures Reader(html)(close + x).len == |close| && Reader(html)(close + x).kind == Tag {
      TagTextReads(html, close, x);
    }
    MarkedNests(Reader(html), Row(html, s), s, kept, 0, open, close, use, stack);
    assert s[0..] == s;
  }

  // ----- marks to tags ------------------------------------------------------------------------------------

  /** split(c).join(tag) */
  function Replace(t: Text, c: Unit, tag: Text): Text {
    if t == [] then [] else (if t[0] == c then tag else [t[0]]) + Replace(t[1..], c, tag)
  }

  lemma {:induction false} ReplaceConcat(a: Text, b: Text, c: Unit, tag: Text)
    ensures Replace(a + b, c, tag) == Replace(a, c, tag) + Replace(b, c, tag)
  {
    if a == [] {
      assert a + b == b;
    } else {
      assert (a + b)[1..] == a[1..] + b;
      ReplaceConcat(a[1..], b, c, tag);
    }
  }

  lemma {:induction false} ReplaceNone(t: Text, c: Unit, tag: Text)
    requires c !in t
    ensures Replace(t, c, tag) == t
  {
    if t != [] {
      ReplaceNone(t[1..], c, tag);
    }
  }

  /** blankMarksToTags */
  function BlankMarksToTags(marked: Text, open: Text, close: Text): Text {
    Replace(Replace(marked, OPEN, open), CLOSE, close)
  }

  /**
   * The marks become the tags, each in its place, and nothing else changes; a closing mark in the
   * opening tag itself is replaced too.
   */
  lemma {:induction false} TagsForMarks(s: Text, kept: seq<Span>, at: nat, open: Text, close: Text)
    requires Unmarked(s) && InOrder(kept, at, |s|) && at <= |s|
    ensures BlankMarksToTags(Marked(s, kept, at), open, close)
        == Inserted(s, kept, at, Replace(open, CLOSE, close), close)
    ensures CLOSE !in open ==> BlankMarksToTags(Marked(s, kept, at), open, close) == Inserted(s, kept, at, open, close)
    decreases kept
  {
    if CLOSE !in open {
      ReplaceNone(open, CLOSE, close);
    }
    if kept == [] {
      ReplaceNone(s[at..], OPEN, open);
      ReplaceNone(s[at..], CLOSE, close);
    } else {
      var from, to := kept[0].start, kept[0].end;
      InOrderTail(kept, at, |s|);
      TagsForMarks(s, kept[1..], to, open, close);
      TagsForPair(s[at..from], s[from..to], Marked(s, kept[1..], to), open, close);
    }
  }

  lemma TagsForPair(a: Text, b: Text, rest: Text, open: Text, close: Text)
    requires Unmarked(a) && Unmarked(b)
    ensures BlankMarksToTags(a + [OPEN] + b + [CLOSE] + rest, open, close)
         == a + Replace(open, CLOSE, close) + b + close + BlankMarksToTags(rest, open, close)
  {
    var rest1 := Replace(rest, OPEN, open);
    Around(a, [OPEN], b, [CLOSE], rest);
    ReplacePair(a, [OPEN], b, [CLOSE], rest, OPEN, open);
    ReplaceNone(a, OPEN, open);
    ReplaceNone(b, OPEN, open);
    ReplaceNone([CLOSE], OPEN, open);
    ReplaceOne(OPEN, open);
    Around(a, open, b, [CLOSE], rest1);
    ReplacePair(a, open, b, [CLOSE], rest1, CLOSE, close);
    ReplaceNone(a, CLOSE, close);
    ReplaceNone(b, CLOSE, close);
    ReplaceOne(CLOSE, close);
    Around(a, Replace(open, CLOSE, close), b, close, Replace(rest1, CLOSE, close));
  }

  lemma ReplaceOne(c: Unit, tag: Text)
    ensures Replace([c], c, tag) == tag
  {
    assert [c][1..] == [];
  }

  lemma ReplacePair(a: Text, o: Text, b: Text, x: Text, rest: Text, c: Unit, tag: Text)
    ensures Replace(a + (o + (b + (x + rest))), c, tag)
         == Replace(a, c, tag) + (Replace(o, c, tag)
             + (Replace(b, c, tag) + (Replace(x, c, tag) + Replace(rest, c, tag))))
  {
    ReplaceConcat(a, o + (b + (x + rest)), c, tag);
    ReplaceConcat(o, b + (x + rest), c, tag);
    ReplaceConcat(b, x + rest, c, tag);
    ReplaceConcat(x, rest, c, tag);
  }
}
