/**
 * From grouped rows to the report (scripts/cost-report/lib/aggregate.ts): drafts, window totals,
 * the windows of the aux rows, grand totals. The theorems at the end of each part say that no row
 * is lost or counted twice on the way.
 */
module CostReport {
  import opened Options
  import opened Prefixes
  import opened CostTotals
  import opened UnionFinds
  import opened CostGrouping

  // ----- which rows end up in one draft -------------------------------------------------------------

  predicate InDraftOf(d: Drafts<string>, k: string, r: Row) {
    k in d.groups && (r in d.groups[k].generations || r in d.groups[k].intake)
  }

  lemma HoldsMeansRoot(input: WindowRows, d: Drafts<string>, root: Links<string>, k: string, r: Row)
    requires WellFormed(input) && Grouped(input, r)
    requires Files(d, ByRoot(input.generations, root), ByRoot(AuxOf(input.aux, false), root))
    ensures InDraftOf(d, k, r) <==> k == RootIn(root, KeysOf(r)[0])
  {
    var rows := AuxOf(input.aux, false);
    ByRootMember(input.generations, root, k, r);
    ByRootMember(rows, root, k, r);
    AtMember(ByRoot(input.generations, root), k, r);
    AtMember(ByRoot(rows, root), k, r);
  }

  lemma ByRootMember(rows: seq<Row>, root: Links<string>, k: string, r: Row)
    ensures (k, r) in ByRoot(rows, root) <==> r in rows && k == RootIn(root, KeysOf(r)[0])
  {
    if r in rows {
      var i :| 0 <= i < |rows| && rows[i] == r;
      assert ByRoot(rows, root)[i] == (RootIn(root, KeysOf(r)[0]), r);
    }
  }

  /**
   * Each Generation and intake row is in exactly one draft, and two of them are in the same draft
   * exactly when a chain of Generation rows sharing ids links them.
   */
  lemma SameDraftIffLinked(
    input: WindowRows, d: Drafts<string>, root: Links<string>, united: seq<(string, string)>, a: Row, b: Row)
    requires WellFormed(input) && UnitedBy(input.generations, united, root)
    requires Files(d, ByRoot(input.generations, root), ByRoot(AuxOf(input.aux, false), root))
    requires Grouped(input, a) && Grouped(input, b)
    ensures exists k :: InDraftOf(d, k, a)
    ensures forall k, j :: InDraftOf(d, k, a) && InDraftOf(d, j, a) ==> k == j
    ensures (exists k :: InDraftOf(d, k, a) && InDraftOf(d, k, b)) <==> Linked(input.generations, a, b)
  {
    var ka, kb := RootIn(root, KeysOf(a)[0]), RootIn(root, KeysOf(b)[0]);
    forall k ensures InDraftOf(d, k, a) <==> k == ka {
      HoldsMeansRoot(input, d, root, k, a);
    }
    forall k ensures InDraftOf(d, k, b) <==> k == kb {
      HoldsMeansRoot(input, d, root, k, b);
    }
    assert InDraftOf(d, ka, a);
    SameRootIffLinked(input, united, root, a, b);
  }

  /** The user appears in this draft and in no other. */
  ghost predicate OnlyDraft(d: Drafts<string>, u: string, k: string) {
    && k in d.groups && HasUser(d.groups[k], u)
    && forall j :: j in d.groups && HasUser(d.groups[j], u) ==> j == k
  }

  lemma {:induction false} DraftsOfDistinct(order: seq<string>, groups: map<string, Group>, u: string)
    requires Distinct(order)
    ensures Distinct(DraftsOf(order, groups, u))
  {
    if order != [] {
      var n := |order| - 1;
      DraftsOfDistinct(order[..n], groups, u);
      var c := DraftsOf(order[..n], groups, u);
      forall i | 0 <= i < |c| ensures c[i] != order[n] {
        assert c[i] in c;
        DraftsOfInGroups(order[..n], groups, u, c[i]);
      }
    }
  }

  lemma SingleCandidate(d: Drafts<string>, u: string, k: string)
    requires Ordered(d.order, d.groups)
    ensures DraftsOf(d.order, d.groups, u) == [k] <==> OnlyDraft(d, u, k)
  {
    var c := DraftsOf(d.order, d.groups, u);
    forall j ensures j in c <==> j in d.groups && HasUser(d.groups[j], u) {
      DraftsOfInGroups(d.order, d.groups, u, j);
    }
    DraftsOfDistinct(d.order, d.groups, u);
    if OnlyDraft(d, u, k) {
      assert forall i :: 0 <= i < |c| ==> c[i] in c;
      OnlyMember(c, k);
    }
    if c == [k] {
      assert k in c;
    }
  }

  lemma OnlyMember<T>(c: seq<T>, k: T)
    requires Distinct(c) && k in c && forall i :: 0 <= i < |c| ==> c[i] == k
    ensures c == [k]
  {
    assert c[0] == c[|c| - 1];
  }

  /** The place of a row is a draft exactly when that is its user's only draft. */
  lemma PlaceIsOnlyDraft(before: Drafts<string>, r: Row, k: string)
    requires Ordered(before.order, before.groups)
    ensures PlaceOf(before, r) == InDraft(k) <==> Given(r.userId) && OnlyDraft(before, r.userId.value, k)
  {
    if Given(r.userId) {
      SingleCandidate(before, r.userId.value, k);
    }
  }

  lemma PlacedMember(before: Drafts<string>, rows: seq<Row>, r: Row, p: Place)
    requires r in rows
    ensures r in At(ByPlace(rows, before), p) <==> p == PlaceOf(before, r)
  {
    var placed := ByPlace(rows, before);
    var i :| 0 <= i < |rows| && rows[i] == r;
    assert placed[i] == (PlaceOf(before, r), r);
    AtMember(placed, p, r);
  }

  /**
   * Each preflight row is in exactly one list: the draft `k` when its user appears in `k` and in
   * no other draft, and otherwise the unattributed list of its user.
   */
  lemma PreflightIffOnlyDraft(
    before: Drafts<string>, d: Drafts<string>, loose: Loose, rows: seq<Row>, r: Row, k: string, u: string)
    requires Ordered(before.order, before.groups) && r in rows
    requires Places(d, loose, before, ByPlace(rows, before))
    ensures k in d.groups && r in d.groups[k].preflight
       <==> Given(r.userId) && OnlyDraft(before, r.userId.value, k)
    ensures u in loose.rows && r in loose.rows[u]
       <==> u == (if r.userId.Some? then r.userId.value else "")
            && !exists j :: Given(r.userId) && OnlyDraft(before, r.userId.value, j)
  {
    PlacedMember(before, rows, r, InDraft(k));
    PlacedMember(before, rows, r, Unattributed(u));
    forall j ensures PlaceOf(before, r) == InDraft(j) <==> Given(r.userId) && OnlyDraft(before, r.userId.value, j) {
      PlaceIsOnlyDraft(before, r, j);
    }
    if PlaceOf(before, r).InDraft? {
      assert PlaceOf(before, r) == InDraft(PlaceOf(before, r).root);
    }
  }

  // ----- one draft ---------------------------------------------------------------------------------

  datatype Linkage = Exact | IntakeOnly | BodyOnly | IntakeMissing

  datatype DraftCost = DraftCost(
    intakeIds: seq<string>, linkage: Linkage, hasPreflight: bool, firstAt: Option<int>,
    body: Stage, intake: Stage, preflight: Stage, totalUsd: real, totalInr: real)

  /** Some row names an intake. */
  ghost predicate NamesIntake(rows: seq<Row>) {
    exists r :: r in rows && Given(r.intakeId)
  }

  /** The earliest time among the rows, if any row has one. */
  ghost predicate Earliest(rows: seq<Row>, at: Option<int>) {
    && (at.None? ==> forall r :: r in rows ==> r.createdAt.None?)
    && (at.Some? ==> exists r :: r in rows && r.createdAt == at)
    && (at.Some? ==> forall r :: r in rows && r.createdAt.Some? ==> at.value <= r.createdAt.value)
  }

  /** The stages of a draft are the sums of its group's rows. */
  ghost predicate AddsUp(d: DraftCost, g: Group, rates: RateTable) {
    && Content(d.body) == SumOf(g.generations, rates)
    && Content(d.intake) == SumOf(g.intake, rates)
    && Content(d.preflight) == SumOf(g.preflight, rates)
  }

  /** What a draft says of its group. */
  ghost predicate Describes(d: DraftCost, g: Group, rates: RateTable, usdInr: real) {
    && AddsUp(d, g, rates)
    && Sound(d.body, usdInr) && Sound(d.intake, usdInr) && Sound(d.preflight, usdInr)
    && d.totalUsd == d.body.costUsd + d.intake.costUsd + d.preflight.costUsd
    && d.totalInr == Inr(d.totalUsd, usdInr)
    && (d.hasPreflight <==> g.preflight != [])
    && (d.linkage.IntakeOnly? <==> g.generations == [])
    && (d.linkage.Exact? <==> g.generations != [] && g.intake != [])
    && (d.linkage.BodyOnly? <==> g.generations != [] && g.intake == []
                                 && !NamesIntake(g.generations + g.intake + g.preflight))
    && Earliest(g.generations + g.intake + g.preflight, d.firstAt)
    && NamesEach(g.generations + g.intake + g.preflight, d.intakeIds)
  }

  /** The list names each intake of the rows, once. */
  ghost predicate NamesEach(rows: seq<Row>, ids: seq<string>) {
    && (forall v :: v in ids <==> v != "" && exists r :: r in rows && r.intakeId == Some(v))
    && (forall i, j :: 0 <= i < j < |ids| ==> ids[i] != ids[j])
  }

  method IntakeIdsOf(rows: seq<Row>) returns (ids: seq<string>)
    ensures forall v :: v in ids <==> v != "" && exists r :: r in rows && r.intakeId == Some(v)
    ensures IsModelList(ids)
    ensures ids != [] <==> NamesIntake(rows)
  {
    ids := [];
    for i := 0 to |rows|
      invariant forall v :: v in ids <==> v != "" && exists r :: r in rows[..i] && r.intakeId == Some(v)
      invariant IsModelList(ids)
    {
      PrefixStep(rows, i);
      if Given(rows[i].intakeId) && rows[i].intakeId.value !in ids {
        ids := ids + [rows[i].intakeId.value];
      }
    }
    PrefixAll(rows);
    if ids != [] {
      assert ids[0] in ids;
    }
    if NamesIntake(rows) {
      var r :| r in rows && Given(r.intakeId);
      assert r.intakeId.value in ids;
    }
  }

  method FirstAt(rows: seq<Row>) returns (at: Option<int>)
    ensures Earliest(rows, at)
  {
    at := None;
    for i := 0 to |rows|
      invariant Earliest(rows[..i], at)
    {
      PrefixStep(rows, i);
      if rows[i].createdAt.Some? && (at.None? || rows[i].createdAt.value < at.value) {
        at := rows[i].createdAt;
      }
    }
    PrefixAll(rows);
  }

  method DraftFromGroup(g: Group, rates: RateTable, usdInr: real) returns (d: DraftCost)
    ensures Describes(d, g, rates, usdInr)
  {
    var body := StageOf(g.generations, rates, usdInr);
    var intake := StageOf(g.intake, rates, usdInr);
    var preflight := StageOf(g.preflight, rates, usdInr);
    var rows := g.generations + g.intake + g.preflight;
    var ids := IntakeIdsOf(rows);
    var linkage := if g.generations == [] then IntakeOnly
                   else if g.intake != [] then Exact
                   else if ids != [] then IntakeMissing
                   else BodyOnly;
    var first := FirstAt(rows);
    var totalUsd := body.costUsd + intake.costUsd + preflight.costUsd;
    d := DraftCost(ids, linkage, g.preflight != [], first,
                   body, intake, preflight, totalUsd, Inr(totalUsd, usdInr));
  }

  // ----- the drafts in time order --------------------------------------------------------------------

  /** A draft with the root key of its group. */
  type Keyed = (string, DraftCost)

  /** firstAt in the source's order: no time first, then by time. */
  predicate NoLater(a: Option<int>, b: Option<int>) {
    a.None? || (b.Some? && a.value <= b.value)
  }

  /** No time may come before any, and otherwise the earlier before the later. */
  predicate MayPrecede(a: Option<int>, b: Option<int>) {
    (b.None? ==> a.None?) && (a.Some? && b.Some? ==> a.value <= b.value)
  }

  /** Drafts without a time come first, and then earlier before later. */
  predicate InTimeOrder(xs: seq<Keyed>) {
    forall i, j :: 0 <= i < j < |xs| ==> MayPrecede(xs[i].1.firstAt, xs[j].1.firstAt)
  }

  /** One step of a stable sort: `x` goes after everything that is no later. */
  function Insert(xs: seq<Keyed>, x: Keyed): seq<Keyed> {
    if xs == [] || NoLater(xs[|xs| - 1].1.firstAt, x.1.firstAt) then xs + [x]
    else Insert(xs[..|xs| - 1], x) + [xs[|xs| - 1]]
  }

  function KeysIn(xs: seq<Keyed>): seq<string> {
    seq(|xs|, i requires 0 <= i < |xs| => xs[i].0)
  }

  lemma {:induction false} InsertKeeps(xs: seq<Keyed>, x: Keyed)
    requires InTimeOrder(xs)
    ensures InTimeOrder(Insert(xs, x))
    ensures |Insert(xs, x)| == |xs| + 1
    ensures forall e :: e in Insert(xs, x) <==> e in xs || e == x
    decreases |xs|
  {
    if xs != [] && !NoLater(xs[|xs| - 1].1.firstAt, x.1.firstAt) {
      var n := |xs| - 1;
      InsertKeeps(xs[..n], x);
      assert xs == xs[..n] + [xs[n]];
      var r := Insert(xs[..n], x);
      forall i | 0 <= i < |r| ensures MayPrecede(r[i].1.firstAt, xs[n].1.firstAt) {
        assert r[i] in r;
        if r[i] != x {
          var j :| 0 <= j < n && xs[..n][j] == r[i];
        }
      }
    } else {
      forall i | 0 <= i < |xs| ensures MayPrecede(xs[i].1.firstAt, x.1.firstAt) {
        assert i < |xs| - 1 ==> MayPrecede(xs[i].1.firstAt, xs[|xs| - 1].1.firstAt);
      }
    }
  }

  predicate DistinctKeys(xs: seq<Keyed>) {
    forall i, j :: 0 <= i < j < |xs| ==> xs[i].0 != xs[j].0
  }

  /** Key a stands before key b in the order. */
  ghost predicate StandsBefore(order: seq<string>, a: string, b: string) {
    exists i, j :: 0 <= i < j < |order| && order[i] == a && order[j] == b
  }

  /** Drafts of one time stand in the order of their groups. */
  ghost predicate IsStable(xs: seq<Keyed>, order: seq<string>) {
    forall i, j :: 0 <= i < j < |xs| && xs[i].1.firstAt == xs[j].1.firstAt ==> StandsBefore(order, xs[i].0, xs[j].0)
  }

  lemma {:induction false} InsertStable(xs: seq<Keyed>, x: Keyed, order: seq<string>)
    requires InTimeOrder(xs) && IsStable(xs, order) && forall e :: e in xs ==> StandsBefore(order, e.0, x.0)
    ensures IsStable(Insert(xs, x), order)
    decreases |xs|
  {
    if xs == [] || NoLater(xs[|xs| - 1].1.firstAt, x.1.firstAt) {
      LastIsStable(xs, x, order);
    } else {
      var n := |xs| - 1;
      var r := Insert(xs[..n], x);
      FrontStays(xs, x.0, order);
      InsertStable(xs[..n], x, order);
      InsertKeeps(xs[..n], x);
      LaterStays(xs, r, x, order);
      assert Insert(xs, x) == r + [xs[n]];
    }
  }

  lemma LastIsStable(xs: seq<Keyed>, x: Keyed, order: seq<string>)
    requires IsStable(xs, order) && forall e :: e in xs ==> StandsBefore(order, e.0, x.0)
    ensures IsStable(xs + [x], order)
  {
    forall i | 0 <= i < |xs| ensures StandsBefore(order, xs[i].0, x.0) {
      assert xs[i] in xs;
    }
  }

  lemma FrontStays(xs: seq<Keyed>, k: string, order: seq<string>)
    requires xs != [] && InTimeOrder(xs) && IsStable(xs, order)
    requires forall e :: e in xs ==> StandsBefore(order, e.0, k)
    ensures InTimeOrder(xs[..|xs| - 1]) && IsStable(xs[..|xs| - 1], order)
    ensures forall e :: e in xs[..|xs| - 1] ==> StandsBefore(order, e.0, k)
  {
  }

  lemma LaterStays(xs: seq<Keyed>, r: seq<Keyed>, x: Keyed, order: seq<string>)
    requires xs != [] && IsStable(xs, order) && IsStable(r, order)
    requires !NoLater(xs[|xs| - 1].1.firstAt, x.1.firstAt)
    requires forall e :: e in r <==> e in xs[..|xs| - 1] || e == x
    ensures IsStable(r + [xs[|xs| - 1]], order)
  {
    var n := |xs| - 1;
    forall i | 0 <= i < |r| && r[i].1.firstAt == xs[n].1.firstAt ensures StandsBefore(order, r[i].0, xs[n].0) {
      assert r[i] in r && r[i] != x;
      var j :| 0 <= j < n && xs[..n][j] == r[i];
    }
  }

  lemma {:induction false} InsertDistinct(xs: seq<Keyed>, x: Keyed)
    requires InTimeOrder(xs) && DistinctKeys(xs) && forall e :: e in xs ==> e.0 != x.0
    ensures DistinctKeys(Insert(xs, x))
    decreases |xs|
  {
    if xs == [] || NoLater(xs[|xs| - 1].1.firstAt, x.1.firstAt) {
      forall i | 0 <= i < |xs| ensures xs[i].0 != x.0 {
        assert xs[i] in xs;
      }
    } else {
      var n := |xs| - 1;
      assert forall e :: e in xs[..n] ==> e in xs;
      InsertDistinct(xs[..n], x);
      InsertKeeps(xs[..n], x);
      var r := Insert(xs[..n], x);
      assert xs[n] in xs;
      forall i | 0 <= i < |r| ensures r[i].0 != xs[n].0 {
        assert r[i] in r;
        if r[i] != x {
          var j :| 0 <= j < n && xs[..n][j] == r[i];
        }
      }
    }
  }

  // ----- one window ------------------------------------------------------------------------------------

  datatype UnattributedPreflight = UnattributedPreflight(userId: Option<string>, candidateDrafts: nat, stage: Stage)

  datatype WindowReport = WindowReport(
    name: string, drafts: seq<Keyed>, unattributed: seq<UnattributedPreflight>,
    body: Stage, intake: Stage, preflight: Stage, totalUsd: real, totalInr: real)

  /** What stages add up to, whatever their order of models. */
  function SumStages(stages: seq<Stage>): Sum {
    if stages == [] then ZERO
    else Plus(SumStages(stages[..|stages| - 1]), Content(stages[|stages| - 1]))
  }

  lemma {:induction false} SumStagesConcat(a: seq<Stage>, b: seq<Stage>)
    ensures SumStages(a + b) == Plus(SumStages(a), SumStages(b))
    decreases |b|
  {
    if b == [] {
      assert a + b == a;
      PlusIsCommutativeMonoid(SumStages(a), ZERO, ZERO);
    } else {
      var n := |b| - 1;
      assert (a + b)[..|a + b| - 1] == a + b[..n];
      SumStagesConcat(a, b[..n]);
      PlusIsCommutativeMonoid(SumStages(a), SumStages(b[..n]), Content(b[n]));
    }
  }

  /** Stages that hold the lists filed under each tag add up to all the rows. */
  lemma {:induction false} SumStagesOfLists<T>(order: seq<T>, tagged: seq<(T, Row)>, stages: seq<Stage>,
                                               rates: RateTable)
    requires |order| == |stages|
    requires forall i :: 0 <= i < |order| ==> Content(stages[i]) == SumOf(At(tagged, order[i]), rates)
    ensures SumStages(stages) == SumOf(Flatten(order, tagged), rates)
  {
    if order != [] {
      var n := |order| - 1;
      SumStagesOfLists(order[..n], tagged, stages[..n], rates);
      SumOfConcat(Flatten(order[..n], tagged), At(tagged, order[n]), rates);
    }
  }

  lemma SumStagesOfRows<T>(order: seq<T>, tagged: seq<(T, Row)>, stages: seq<Stage>, rates: RateTable)
    requires |order| == |stages| && Distinct(order) && forall e :: e in tagged ==> e.0 in order
    requires forall i :: 0 <= i < |order| ==> Content(stages[i]) == SumOf(At(tagged, order[i]), rates)
    ensures SumStages(stages) == SumOf(RowsIn(tagged), rates)
  {
    SumStagesOfLists(order, tagged, stages, rates);
    FlattenIsPermutation(order, tagged);
    SumOfPermutation(Flatten(order, tagged), RowsIn(tagged), rates);
  }

  function Bodies(xs: seq<Keyed>): seq<Stage> { seq(|xs|, i requires 0 <= i < |xs| => xs[i].1.body) }
  function Intakes(xs: seq<Keyed>): seq<Stage> { seq(|xs|, i requires 0 <= i < |xs| => xs[i].1.intake) }
  function Preflights(xs: seq<Keyed>): seq<Stage> { seq(|xs|, i requires 0 <= i < |xs| => xs[i].1.preflight) }
  function LooseStages(us: seq<UnattributedPreflight>): seq<Stage> {
    seq(|us|, i requires 0 <= i < |us| => us[i].stage)
  }

  /** One draft for each group, with the sums of that group's rows. */
  ghost predicate OneEach(xs: seq<Keyed>, d: Drafts<string>, rates: RateTable) {
    && DistinctKeys(xs) && |xs| == |d.order|
    && (forall i :: 0 <= i < |xs| ==> xs[i].0 in d.groups && AddsUp(xs[i].1, d.groups[xs[i].0], rates))
    && (forall k :: k in d.groups ==> k in KeysIn(xs))
  }

  /** The drafts of a report describe the groups, one each, in time order. */
  ghost predicate DescribesAll(xs: seq<Keyed>, d: Drafts<string>, rates: RateTable, usdInr: real) {
    && InTimeOrder(xs) && IsStable(xs, d.order) && OneEach(xs, d, rates)
    && forall i :: 0 <= i < |xs| ==> Describes(xs[i].1, d.groups[xs[i].0], rates, usdInr)
  }

  /** drafts = [...groups.values()].map(draftFromGroup).sort(by firstAt) */
  method BuildDrafts(d: Drafts<string>, rates: RateTable, usdInr: real) returns (xs: seq<Keyed>)
    requires Ordered(d.order, d.groups)
    ensures DescribesAll(xs, d, rates, usdInr)
  {
    xs := [];
    for i := 0 to |d.order|
      invariant DescribesFirst(xs, d, i, rates, usdInr)
    {
      var draft := DraftFromGroup(d.groups[d.order[i]], rates, usdInr);
      InsertDescribes(xs, d, i, draft, rates, usdInr);
      xs := Insert(xs, (d.order[i], draft));
    }
    FirstIsAll(xs, d, rates, usdInr);
  }

  /** The drafts describe the first n groups, one each, in time order. */
  ghost predicate DescribesFirst(xs: seq<Keyed>, d: Drafts<string>, n: nat, rates: RateTable, usdInr: real)
    requires n <= |d.order|
  {
    && InTimeOrder(xs) && IsStable(xs, d.order) && DistinctKeys(xs) && |xs| == n
    && (forall e :: e in xs ==> e.0 in d.groups && Describes(e.1, d.groups[e.0], rates, usdInr))
    && (forall e :: e in xs ==> e.0 in d.order[..n])
    && (forall j :: 0 <= j < n ==> HasKey(xs, d.order[j]))
  }

  lemma InsertDescribes(xs: seq<Keyed>, d: Drafts<string>, n: nat, draft: DraftCost, rates: RateTable, usdInr: real)
    requires Ordered(d.order, d.groups) && n < |d.order| && DescribesFirst(xs, d, n, rates, usdInr)
    requires d.order[n] in d.groups && Describes(draft, d.groups[d.order[n]], rates, usdInr)
    ensures DescribesFirst(Insert(xs, (d.order[n], draft)), d, n + 1, rates, usdInr)
  {
    var x := (d.order[n], draft);
    PrefixStep(d.order, n);
    NotYetListed(d, n);
    InsertKeeps(xs, x);
    EarlierStandBefore(xs, d.order, n);
    InsertStable(xs, x, d.order);
    InsertDistinct(xs, x);
    InsertHasKey(xs, x);
  }

  lemma EarlierStandBefore(xs: seq<Keyed>, order: seq<string>, n: nat)
    requires n < |order| && forall e :: e in xs ==> e.0 in order[..n]
    ensures forall e :: e in xs ==> StandsBefore(order, e.0, order[n])
  {
    forall e | e in xs ensures StandsBefore(order, e.0, order[n]) {
      var i :| 0 <= i < n && order[..n][i] == e.0;
      assert order[i] == e.0;
    }
  }

  lemma NotYetListed(d: Drafts<string>, n: nat)
    requires Ordered(d.order, d.groups) && n < |d.order|
    ensures d.order[n] !in d.order[..n]
  {
  }

  lemma FirstIsAll(xs: seq<Keyed>, d: Drafts<string>, rates: RateTable, usdInr: real)
    requires Ordered(d.order, d.groups) && DescribesFirst(xs, d, |d.order|, rates, usdInr)
    ensures DescribesAll(xs, d, rates, usdInr)
  {
    forall k | k in d.groups ensures k in KeysIn(xs) {
      var j :| 0 <= j < |d.order| && d.order[j] == k;
      assert HasKey(xs, d.order[j]);
    }
    assert forall i :: 0 <= i < |xs| ==> xs[i] in xs;
  }

  ghost predicate HasKey(xs: seq<Keyed>, k: string) {
    k in KeysIn(xs)
  }

  lemma InsertHasKey(xs: seq<Keyed>, x: Keyed)
    requires InTimeOrder(xs)
    ensures forall k :: HasKey(Insert(xs, x), k) <==> HasKey(xs, k) || k == x.0
  {
    InsertKeeps(xs, x);
    var r := Insert(xs, x);
    forall k ensures HasKey(r, k) <==> HasKey(xs, k) || k == x.0 {
      KeyMember(r, k);
      KeyMember(xs, k);
    }
  }

  lemma KeyMember(xs: seq<Keyed>, k: string)
    ensures HasKey(xs, k) <==> exists e :: e in xs && e.0 == k
  {
    if HasKey(xs, k) {
      var i :| 0 <= i < |xs| && KeysIn(xs)[i] == k;
      assert xs[i] in xs;
    }
    if e :| e in xs && e.0 == k {
      var i :| 0 <= i < |xs| && xs[i] == e;
      assert KeysIn(xs)[i] == k;
    }
  }

  /** What an entry of the unattributed list says: the user, how many drafts it had, and the sum of its rows. */
  ghost predicate Explains(e: UnattributedPreflight, u: string, rows: seq<Row>, before: Drafts<string>,
                           rates: RateTable, usdInr: real) {
    && Content(e.stage) == SumOf(rows, rates) && Sound(e.stage, usdInr)
    && e.userId == (if u == "" then None else Some(u))
    && e.candidateDrafts == (if u == "" then 0 else |DraftsOf(before.order, before.groups, u)|)
  }

  ghost predicate ExplainsAll(us: seq<UnattributedPreflight>, loose: Loose, before: Drafts<string>, rates: RateTable,
                              usdInr: real) {
    && |us| == |loose.order|
    && forall i :: 0 <= i < |us| ==>
         loose.order[i] in loose.rows
         && Explains(us[i], loose.order[i], loose.rows[loose.order[i]], before, rates, usdInr)
  }

  /** The preflight rows whose user has no single draft, one stage per user. */
  method BuildUnattributed(loose: Loose, byUser: map<string, seq<string>>, ghost before: Drafts<string>,
                           rates: RateTable, usdInr: real)
    returns (us: seq<UnattributedPreflight>)
    requires Ordered(loose.order, loose.rows)
    requires forall u :: Entry(byUser, u) == DraftsOf(before.order, before.groups, u)
    ensures ExplainsAll(us, loose, before, rates, usdInr)
  {
    us := [];
    for i := 0 to |loose.order|
      invariant |us| == i
      invariant forall j :: 0 <= j < i ==>
        loose.order[j] in loose.rows
         && Explains(us[j], loose.order[j], loose.rows[loose.order[j]], before, rates, usdInr)
    {
      var u := loose.order[i];
      var e := UnattributedOf(u, loose.rows[u], byUser, before, rates, usdInr);
      us := us + [e];
    }
  }

  method UnattributedOf(u: string, rows: seq<Row>, byUser: map<string, seq<string>>, ghost before: Drafts<string>,
                        rates: RateTable, usdInr: real)
    returns (e: UnattributedPreflight)
    requires Entry(byUser, u) == DraftsOf(before.order, before.groups, u)
    ensures Explains(e, u, rows, before, rates, usdInr)
  {
    var stage := StageOf(rows, rates, usdInr);
    e := UnattributedPreflight(if u == "" then None else Some(u), if u == "" then 0 else |Entry(byUser, u)|, stage);
  }

  /** Merges stages into fresh totals. */
  method MergeAll(stages: seq<Stage>, usdInr: real) returns (t: Stage)
    ensures Content(t) == SumStages(stages) && Sound(t, usdInr)
  {
    var totals := new StageTotals();
    for i := 0 to |stages|
      invariant Content(totals.View()) == SumStages(stages[..i]) && Sound(totals.View(), usdInr)
    {
      PrefixStep(stages, i);
      totals.Merge(stages[i], usdInr);
    }
    PrefixAll(stages);
    t := totals.View();
  }

  lemma TagsAreKeys(xs: seq<Keyed>, d: Drafts<string>, rates: RateTable, tagged: seq<(string, Row)>)
    requires OneEach(xs, d, rates)
    requires forall k :: At(tagged, k) != [] ==> k in d.groups
    ensures Distinct(KeysIn(xs)) && forall e :: e in tagged ==> e.0 in KeysIn(xs)
  {
    forall e | e in tagged ensures e.0 in KeysIn(xs) {
      AtMember(tagged, e.0, e.1);
    }
  }

  /** The stages of the drafts add up to the rows that were grouped. */
  lemma GroupedTotals(
    xs: seq<Keyed>, before: Drafts<string>, d: Drafts<string>, loose: Loose, placed: seq<(Place, Row)>,
    generations: seq<(string, Row)>, intake: seq<(string, Row)>, rates: RateTable)
    requires Files(before, generations, intake) && Places(d, loose, before, placed)
    requires OneEach(xs, d, rates)
    ensures SumStages(Bodies(xs)) == SumOf(RowsIn(generations), rates)
    ensures SumStages(Intakes(xs)) == SumOf(RowsIn(intake), rates)
  {
    TagsAreKeys(xs, d, rates, generations);
    TagsAreKeys(xs, d, rates, intake);
    SumStagesOfRows(KeysIn(xs), generations, Bodies(xs), rates);
    SumStagesOfRows(KeysIn(xs), intake, Intakes(xs), rates);
  }

  ghost function DraftPlaces(xs: seq<Keyed>): seq<Place> {
    seq(|xs|, i requires 0 <= i < |xs| => InDraft(xs[i].0))
  }

  ghost function LoosePlaces(loose: Loose): seq<Place> {
    seq(|loose.order|, i requires 0 <= i < |loose.order| => Unattributed(loose.order[i]))
  }

  lemma DraftPlaceListed(xs: seq<Keyed>, k: string)
    requires k in KeysIn(xs)
    ensures InDraft(k) in DraftPlaces(xs)
  {
    var i :| 0 <= i < |xs| && KeysIn(xs)[i] == k;
    assert DraftPlaces(xs)[i] == InDraft(k);
  }

  lemma LoosePlaceListed(loose: Loose, u: string)
    requires u in loose.order
    ensures Unattributed(u) in LoosePlaces(loose)
  {
    var i :| 0 <= i < |loose.order| && loose.order[i] == u;
    assert LoosePlaces(loose)[i] == Unattributed(u);
  }

  lemma PlaceOrderCovers(
    xs: seq<Keyed>, before: Drafts<string>, d: Drafts<string>, loose: Loose, placed: seq<(Place, Row)>,
    rates: RateTable, e: (Place, Row))
    requires Places(d, loose, before, placed) && OneEach(xs, d, rates)
    requires e in placed && (e.0.InDraft? ==> e.0.root in d.groups)
    ensures e.0 in DraftPlaces(xs) + LoosePlaces(loose)
  {
    if e.0.InDraft? {
      DraftPlaceListed(xs, e.0.root);
    } else {
      AtMember(placed, e.0, e.1);
      LoosePlaceListed(loose, e.0.user);
    }
  }

  lemma PlaceOrderDistinct(xs: seq<Keyed>, loose: Loose)
    requires DistinctKeys(xs) && Distinct(loose.order)
    ensures Distinct(DraftPlaces(xs) + LoosePlaces(loose))
  {
  }

  lemma PreflightTotals(
    xs: seq<Keyed>, us: seq<UnattributedPreflight>, before: Drafts<string>, d: Drafts<string>, loose: Loose,
    placed: seq<(Place, Row)>, rates: RateTable)
    requires Ordered(before.order, before.groups) && Places(d, loose, before, placed)
    requires forall e :: e in placed && e.0.InDraft? ==> e.0.root in d.groups
    requires OneEach(xs, d, rates) && |us| == |loose.order|
    requires forall i :: 0 <= i < |us| ==> Content(us[i].stage) == SumOf(loose.rows[loose.order[i]], rates)
    ensures SumStages(Preflights(xs) + LooseStages(us)) == SumOf(RowsIn(placed), rates)
  {
    var a, b := DraftPlaces(xs), LoosePlaces(loose);
    forall e | e in placed ensures e.0 in a + b {
      PlaceOrderCovers(xs, before, d, loose, placed, rates, e);
    }
    PlaceOrderDistinct(xs, loose);
    SumStagesOfLists(a, placed, Preflights(xs), rates);
    assert forall i :: 0 <= i < |b| ==> loose.order[i] in loose.rows;
    SumStagesOfLists(b, placed, LooseStages(us), rates);
    SumStagesConcat(Preflights(xs), LooseStages(us));
    SumOfConcat(Flatten(a, placed), Flatten(b, placed), rates);
    FlattenConcat(a, b, placed);
    FlattenIsPermutation(a + b, placed);
    SumOfPermutation(Flatten(a + b, placed), RowsIn(placed), rates);
  }

  /** Every total of a window is the sum of its rows of that stage. */
  ghost predicate Conserves(w: WindowReport, generations: seq<Row>, aux: seq<Row>, rates: RateTable, usdInr: real)
    requires forall r :: r in aux ==> r.Aux?
  {
    && Content(w.body) == SumOf(generations, rates) && Sound(w.body, usdInr)
    && Content(w.intake) == SumOf(AuxOf(aux, false), rates) && Sound(w.intake, usdInr)
    && Content(w.preflight) == SumOf(AuxOf(aux, true), rates) && Sound(w.preflight, usdInr)
    && w.totalUsd == w.body.costUsd + w.intake.costUsd + w.preflight.costUsd
    && w.totalInr == Inr(w.totalUsd, usdInr)
  }

  lemma RowsInTagged(input: WindowRows, root: Links<string>, d: Drafts<string>)
    requires WellFormed(input)
    ensures RowsIn(ByRoot(input.generations, root)) == input.generations
    ensures RowsIn(ByRoot(AuxOf(input.aux, false), root)) == AuxOf(input.aux, false)
    ensures RowsIn(ByPlace(AuxOf(input.aux, true), d)) == AuxOf(input.aux, true)
  {
  }

  lemma PlacedInGroups(d: Drafts<string>, rows: seq<Row>)
    ensures forall e :: e in ByPlace(rows, d) && e.0.InDraft? ==> e.0.root in d.groups
  {
    forall e | e in ByPlace(rows, d) && e.0.InDraft? ensures e.0.root in d.groups {
      var i :| 0 <= i < |rows| && ByPlace(rows, d)[i] == e;
      DraftsOfInGroups(d.order, d.groups, rows[i].userId.value, e.0.root);
    }
  }

  /**
   * The report's drafts are the groups that shared ids link, with the preflight rows placed by the
   * single-draft rule, and its unattributed list is the rest of them.
   */
  ghost predicate Groups(w: WindowReport, input: WindowRows, rates: RateTable, usdInr: real, before: Drafts<string>,
                         d: Drafts<string>, loose: Loose, root: Links<string>, united: seq<(string, string)>)
    requires WellFormed(input)
  {
    && UnitedBy(input.generations, united, root)
    && Files(before, ByRoot(input.generations, root), ByRoot(AuxOf(input.aux, false), root))
    && Places(d, loose, before, ByPlace(AuxOf(input.aux, true), before))
    && DescribesAll(w.drafts, d, rates, usdInr)
    && ExplainsAll(w.unattributed, loose, before, rates, usdInr)
  }

  ghost predicate IsReportOf(w: WindowReport, input: WindowRows, rates: RateTable, usdInr: real)
    requires WellFormed(input)
  {
    exists before, d, loose, root, united :: Groups(w, input, rates, usdInr, before, d, loose, root, united)
  }

  /**
   * buildWindow: groups the rows, places the preflight rows, builds the drafts and adds up the
   * window. `before` are the groups before preflight rows were placed, `d` after.
   */
  method BuildWindow(input: WindowRows, rates: RateTable, usdInr: real)
    returns (w: WindowReport, ghost before: Drafts<string>, ghost d: Drafts<string>, ghost loose: Loose,
             ghost root: Links<string>, ghost united: seq<(string, string)>)
    requires WellFormed(input)
    ensures Groups(w, input, rates, usdInr, before, d, loose, root, united)
    ensures Conserves(w, input.generations, input.aux, rates, usdInr)
  {
    var grouped, placed, byUser, unattributed;
    grouped, root, united := GroupRows(input);
    placed, unattributed, byUser := PlacePreflight(grouped, AuxOf(input.aux, true));
    before, d, loose := grouped, placed, unattributed;
    var xs := BuildDrafts(placed, rates, usdInr);
    var us := BuildUnattributed(unattributed, byUser, grouped, rates, usdInr);
    StagesAddUp(input, xs, us, before, d, loose, root, rates, usdInr);
    w := WindowOf(input.window.name, xs, us, usdInr);
  }

  /** The totals of a window's lists. */
  method WindowOf(name: string, xs: seq<Keyed>, us: seq<UnattributedPreflight>, usdInr: real) returns (w: WindowReport)
    ensures w.drafts == xs && w.unattributed == us
    ensures Content(w.body) == SumStages(Bodies(xs)) && Sound(w.body, usdInr)
    ensures Content(w.intake) == SumStages(Intakes(xs)) && Sound(w.intake, usdInr)
    ensures Content(w.preflight) == SumStages(Preflights(xs) + LooseStages(us)) && Sound(w.preflight, usdInr)
    ensures w.totalUsd == w.body.costUsd + w.intake.costUsd + w.preflight.costUsd
        && w.totalInr == Inr(w.totalUsd, usdInr)
  {
    var body := MergeAll(Bodies(xs), usdInr);
    var intake := MergeAll(Intakes(xs), usdInr);
    var preflight := MergeAll(Preflights(xs) + LooseStages(us), usdInr);
    var totalUsd := body.costUsd + intake.costUsd + preflight.costUsd;
    w := WindowReport(name, xs, us, body, intake, preflight, totalUsd, Inr(totalUsd, usdInr));
  }

  lemma StagesAddUp(input: WindowRows, xs: seq<Keyed>, us: seq<UnattributedPreflight>, before: Drafts<string>,
                    d: Drafts<string>, loose: Loose, root: Links<string>, rates: RateTable, usdInr: real)
    requires WellFormed(input) && OneEach(xs, d, rates)
    requires Files(before, ByRoot(input.generations, root), ByRoot(AuxOf(input.aux, false), root))
    requires Places(d, loose, before, ByPlace(AuxOf(input.aux, true), before))
    requires ExplainsAll(us, loose, before, rates, usdInr)
    ensures SumStages(Bodies(xs)) == SumOf(input.generations, rates)
    ensures SumStages(Intakes(xs)) == SumOf(AuxOf(input.aux, false), rates)
    ensures SumStages(Preflights(xs) + LooseStages(us)) == SumOf(AuxOf(input.aux, true), rates)
  {
    var places := ByPlace(AuxOf(input.aux, true), before);
    PlacedInGroups(before, AuxOf(input.aux, true));
    RowsInTagged(input, root, before);
    GroupedTotals(xs, before, d, loose, places,
                  ByRoot(input.generations, root), ByRoot(AuxOf(input.aux, false), root), rates);
    PreflightTotals(xs, us, before, d, loose, places, rates);
  }
}
