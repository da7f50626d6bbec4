/**
 * How one window's rows become drafts (buildWindow in scripts/cost-report/lib/aggregate.ts):
 * Generation rows that share ids are united, every Generation and intake row goes to the group of
 * its root, and a preflight row is attached only when its user has exactly one draft.
 */
module CostGrouping {
  import opened Options
  import opened Prefixes
  import opened CostTotals
  import opened UnionFinds

  datatype Window = Window(name: string, start: int, end: int)
  datatype WindowRows = WindowRows(window: Window, generations: seq<Row>, aux: seq<Row>)

  datatype Group = Group(generations: seq<Row>, intake: seq<Row>, preflight: seq<Row>)

  /** The groups map of the source, `order` being its insertion order. */
  datatype Drafts<K> = Drafts(order: seq<K>, groups: map<K, Group>)

  /** The preflight rows tied to no single draft, by user, in insertion order. */
  datatype Loose = Loose(order: seq<string>, rows: map<string, seq<Row>>)

  const EMPTY_GROUP := Group([], [], [])

  /** What the queries of main.ts deliver: each list holds its own kind of row, ids unique. */
  predicate WellFormed(input: WindowRows) {
    && (forall r :: r in input.generations ==> r.Generation?)
    && (forall r :: r in input.aux ==> r.Aux?)
    && UniqueIds(input.generations)
    && UniqueIds(input.aux)
  }

  predicate UniqueIds(rows: seq<Row>) {
    forall i, j :: 0 <= i < j < |rows| ==> rows[i].id != rows[j].id
  }

  predicate IsPreflight(r: Row)
    requires r.Aux?
  {
    r.purpose == Some("preflight")
  }

  // ----- the keys of a row ----------------------------------------------------------------------

  function KeyIf(prefix: string, id: Option<string>): seq<string> {
    if Given(id) then [prefix + id.value] else []
  }

  /** generationKeys for a Generation row, the group key of an intake row. */
  function KeysOf(r: Row): (keys: seq<string>)
    ensures |keys| > 0
  {
    match r
    case Generation(id, _, intakeId, _, _, documentId, runId, _) =>
      var keys := KeyIf("doc:", documentId) + KeyIf("run:", runId) + KeyIf("intake:", intakeId);
      if keys == [] then ["gen:" + id] else keys
    case Aux(id, _, intakeId, _, _, _) =>
      if Given(intakeId) then ["intake:" + intakeId.value] else ["aux:" + id]
  }

  /** Two rows carry the same document, run or intake id. */
  predicate SharesId(a: Row, b: Row) {
    || (Given(a.intakeId) && a.intakeId == b.intakeId)
    || (a.Generation? && b.Generation? && Given(a.documentId) && a.documentId == b.documentId)
    || (a.Generation? && b.Generation? && Given(a.runId) && a.runId == b.runId)
  }

  lemma PrefixInjective(p: string, a: string, b: string)
    requires p + a == p + b
    ensures a == b
  {
    assert a == (p + a)[|p|..];
    assert b == (p + b)[|p|..];
  }

  /** The first character of a key tells which id it holds. */
  lemma KeyShape(r: Row, k: string)
    requires k in KeysOf(r)
    ensures
      || (r.Generation? && k == "gen:" + r.id)
      || (r.Aux? && k == "aux:" + r.id)
      || (Given(r.intakeId) && k == "intake:" + r.intakeId.value)
      || (r.Generation? && Given(r.documentId) && k == "doc:" + r.documentId.value)
      || (r.Generation? && Given(r.runId) && k == "run:" + r.runId.value)
  {
  }

  /** Rows with a key in common share an id, or are the same row. */
  lemma SharedKeyMeansSharedId(a: Row, b: Row, k: string)
    requires k in KeysOf(a) && k in KeysOf(b)
    requires a.Generation? == b.Generation? && a.id == b.id ==> a == b
    ensures a == b || SharesId(a, b)
  {
    KeyShape(a, k);
    KeyShape(b, k);
    if k[0] == 'g' {
      PrefixInjective("gen:", a.id, b.id);
    } else if k[0] == 'a' {
      PrefixInjective("aux:", a.id, b.id);
    } else if k[0] == 'i' {
      PrefixInjective("intake:", a.intakeId.value, b.intakeId.value);
    } else if k[0] == 'd' {
      PrefixInjective("doc:", a.documentId.value, b.documentId.value);
    } else {
      PrefixInjective("run:", a.runId.value, b.runId.value);
    }
  }

  lemma SharedIdMeansSharedKey(a: Row, b: Row) returns (k: string)
    requires SharesId(a, b)
    ensures k in KeysOf(a) && k in KeysOf(b)
  {
    if Given(a.intakeId) && a.intakeId == b.intakeId {
      k := "intake:" + a.intakeId.value;
      assert k in KeyIf("intake:", a.intakeId);
    } else if a.Generation? && b.Generation? && Given(a.documentId) && a.documentId == b.documentId {
      k := "doc:" + a.documentId.value;
      assert k in KeyIf("doc:", a.documentId);
    } else {
      k := "run:" + a.runId.value;
      assert k in KeyIf("run:", a.runId);
    }
  }

  // ----- which rows are linked --------------------------------------------------------------------

  /** A chain of rows of the window, Generation rows in between, each sharing an id with the next. */
  ghost predicate IsChain(generations: seq<Row>, p: seq<Row>, a: Row, b: Row) {
    && |p| > 0 && p[0] == a && p[|p| - 1] == b
    && (forall i :: 0 < i < |p| - 1 ==> p[i] in generations)
    && (forall i :: 1 <= i < |p| ==> p[i - 1] == p[i] || SharesId(p[i - 1], p[i]))
  }

  ghost predicate Linked(generations: seq<Row>, a: Row, b: Row) {
    exists p :: IsChain(generations, p, a, b)
  }

  /** The rows of a window that are grouped by their keys. */
  ghost predicate Grouped(input: WindowRows, r: Row) {
    r in input.generations || (r in input.aux && r.Aux? && r.purpose != Some("preflight"))
  }

  /** What the first loop of buildWindow leaves behind: every Generation row's keys are united. */
  ghost predicate UnitedBy(generations: seq<Row>, united: seq<(string, string)>, root: Links<string>) {
    && Joins(root, united)
    && (forall e :: e in united ==> exists g :: g in generations && e.0 in KeysOf(g) && e.1 in KeysOf(g))
    && (forall g, k :: g in generations && k in KeysOf(g) ==> RootIn(root, k) == RootIn(root, KeysOf(g)[0]))
  }

  ghost predicate SameRowIfSameId(input: WindowRows) {
    forall a, b :: Grouped(input, a) && Grouped(input, b) && a.Generation? == b.Generation? && a.id == b.id ==> a == b
  }

  lemma WellFormedSameRow(input: WindowRows)
    requires WellFormed(input)
    ensures SameRowIfSameId(input)
  {
  }

  lemma LinkedPrepend(generations: seq<Row>, a: Row, g: Row, b: Row)
    requires g in generations && (a == g || SharesId(a, g)) && Linked(generations, g, b)
    ensures Linked(generations, a, b)
  {
    var q :| IsChain(generations, q, g, b);
    assert IsChain(generations, [a] + q, a, b);
  }

  /** The Generation row a united pair comes from. */
  lemma UnitedRow(generations: seq<Row>, united: seq<(string, string)>, root: Links<string>, x: string, y: string)
    returns (g: Row)
    requires UnitedBy(generations, united, root) && Adjacent(united, x, y) && x != y
    ensures g in generations && x in KeysOf(g) && y in KeysOf(g)
  {
    var e := if (x, y) in united then (x, y) else (y, x);
    g :| g in generations && e.0 in KeysOf(g) && e.1 in KeysOf(g);
  }

  /** Keys that the united pairs connect belong to linked rows. */
  lemma {:induction false} PathMakesChain(
    input: WindowRows, united: seq<(string, string)>, root: Links<string>, p: seq<string>, a: Row, b: Row)
    requires SameRowIfSameId(input) && UnitedBy(input.generations, united, root)
    requires Grouped(input, a) && Grouped(input, b)
    requires |p| > 0 && p[0] in KeysOf(a) && IsPath(united, p, p[0], p[|p| - 1]) && p[|p| - 1] in KeysOf(b)
    ensures Linked(input.generations, a, b)
    decreases |p|
  {
    if |p| == 1 {
      SharedKeyMeansSharedId(a, b, p[0]);
      assert IsChain(input.generations, [a, b], a, b);
    } else {
      assert Adjacent(united, p[0], p[1]);
      assert IsPath(united, p[1..], p[1], p[|p| - 1]);
      if p[0] == p[1] {
        PathMakesChain(input, united, root, p[1..], a, b);
      } else {
        var g := UnitedRow(input.generations, united, root, p[0], p[1]);
        PathMakesChain(input, united, root, p[1..], g, b);
        SharedKeyMeansSharedId(a, g, p[0]);
        LinkedPrepend(input.generations, a, g, b);
      }
    }
  }

  /** Linked rows have the same root. */
  lemma {:induction false} ChainKeepsRoot(
    input: WindowRows, united: seq<(string, string)>, root: Links<string>, p: seq<Row>, a: Row, b: Row)
    requires UnitedBy(input.generations, united, root) && IsChain(input.generations, p, a, b)
    requires Grouped(input, a) && Grouped(input, b)
    ensures RootIn(root, KeysOf(a)[0]) == RootIn(root, KeysOf(b)[0])
    decreases |p|
  {
    if |p| > 1 {
      var c := p[1];
      ChainTail(input.generations, p, a, b);
      if a != c {
        var k := SharedIdMeansSharedKey(a, c);
        assert RootIn(root, k) == RootIn(root, KeysOf(a)[0]) == RootIn(root, KeysOf(c)[0]);
      }
      ChainKeepsRoot(input, united, root, p[1..], c, b);
    }
  }

  lemma ChainTail(generations: seq<Row>, p: seq<Row>, a: Row, b: Row)
    requires IsChain(generations, p, a, b) && |p| > 1
    ensures IsChain(generations, p[1..], p[1], b)
    ensures a == p[1] || SharesId(a, p[1])
    ensures p[1] in generations || p[1] == b
  {
  }

  /** Two rows have the same root exactly when a chain of Generation rows links them. */
  lemma SameRootIffLinked(input: WindowRows, united: seq<(string, string)>, root: Links<string>, a: Row, b: Row)
    requires WellFormed(input) && UnitedBy(input.generations, united, root)
    requires Grouped(input, a) && Grouped(input, b)
    ensures RootIn(root, KeysOf(a)[0]) == RootIn(root, KeysOf(b)[0]) <==> Linked(input.generations, a, b)
  {
    SameRootIffConnected(root, united, KeysOf(a)[0], KeysOf(b)[0]);
    if Connected(united, KeysOf(a)[0], KeysOf(b)[0]) {
      var p :| IsPath(united, p, KeysOf(a)[0], KeysOf(b)[0]);
      WellFormedSameRow(input);
      PathMakesChain(input, united, root, p, a, b);
    }
    if Linked(input.generations, a, b) {
      var p :| IsChain(input.generations, p, a, b);
      ChainKeepsRoot(input, united, root, p, a, b);
    }
  }

  // ----- rows filed under a tag ------------------------------------------------------------------

  /** The rows filed under `k`, in order. */
  function At<T(==), R>(tagged: seq<(T, R)>, k: T): seq<R> {
    if tagged == [] then []
    else
      var last := tagged[|tagged| - 1];
      At(tagged[..|tagged| - 1], k) + if last.0 == k then [last.1] else []
  }

  lemma AtAppend<T, R>(tagged: seq<(T, R)>, e: (T, R), k: T)
    ensures At(tagged + [e], k) == At(tagged, k) + if e.0 == k then [e.1] else []
  {
    assert (tagged + [e])[..|tagged|] == tagged;
  }

  lemma {:induction false} AtMember<T, R>(tagged: seq<(T, R)>, k: T, r: R)
    ensures r in At(tagged, k) <==> (k, r) in tagged
  {
    if tagged != [] {
      var n := |tagged| - 1;
      AtMember(tagged[..n], k, r);
      assert tagged == tagged[..n] + [tagged[n]];
    }
  }

  function RowsIn<T, R>(tagged: seq<(T, R)>): seq<R> {
    seq(|tagged|, i requires 0 <= i < |tagged| => tagged[i].1)
  }

  predicate Distinct<T(==)>(xs: seq<T>) {
    forall i, j :: 0 <= i < j < |xs| ==> xs[i] != xs[j]
  }

  /** The lists filed under each tag, one after the other. */
  function Flatten<T(==), R>(order: seq<T>, tagged: seq<(T, R)>): seq<R> {
    if order == [] then []
    else
      var n := |order| - 1;
      Flatten(order[..n], tagged) + At(tagged, order[n])
  }

  lemma {:induction false} FlattenOther<T, R>(order: seq<T>, tagged: seq<(T, R)>, e: (T, R))
    requires e.0 !in order
    ensures Flatten(order, tagged + [e]) == Flatten(order, tagged)
  {
    if order != [] {
      var n := |order| - 1;
      FlattenOther(order[..n], tagged, e);
      AtAppend(tagged, e, order[n]);
      assert order[n] in order;
    }
  }

  lemma MultisetShift<R>(f': seq<R>, f: seq<R>, a: seq<R>, x: R)
    requires multiset(f') == multiset(f) + multiset{x}
    ensures multiset(f' + a) == multiset(f + a) + multiset{x}
  {
  }

  lemma MultisetLast<R>(f: seq<R>, a: seq<R>, x: R)
    ensures multiset(f + (a + [x])) == multiset(f + a) + multiset{x}
  {
    assert f + (a + [x]) == (f + a) + [x];
  }

  lemma {:induction false} FlattenAppend<T, R>(order: seq<T>, tagged: seq<(T, R)>, e: (T, R), i: nat)
    requires i < |order| && forall j :: 0 <= j < |order| ==> (order[j] == e.0 <==> j == i)
    ensures multiset(Flatten(order, tagged + [e])) == multiset(Flatten(order, tagged)) + multiset{e.1}
    decreases |order|
  {
    var n := |order| - 1;
    if i == n {
      FlattenLast(order, tagged, e);
    } else {
      FlattenAppend(order[..n], tagged, e, i);
      FlattenEarlier(order, tagged, e);
    }
  }

  lemma FlattenLast<T, R>(order: seq<T>, tagged: seq<(T, R)>, e: (T, R))
    requires order != [] && order[|order| - 1] == e.0 && forall j :: 0 <= j < |order| - 1 ==> order[j] != e.0
    ensures multiset(Flatten(order, tagged + [e])) == multiset(Flatten(order, tagged)) + multiset{e.1}
  {
    var n := |order| - 1;
    AtAppend(tagged, e, order[n]);
    FlattenOther(order[..n], tagged, e);
    MultisetLast(Flatten(order[..n], tagged), At(tagged, order[n]), e.1);
  }

  lemma FlattenEarlier<T, R>(order: seq<T>, tagged: seq<(T, R)>, e: (T, R))
    requires order != [] && order[|order| - 1] != e.0
    requires multiset(Flatten(order[..|order| - 1], tagged + [e]))
        == multiset(Flatten(order[..|order| - 1], tagged)) + multiset{e.1}
    ensures multiset(Flatten(order, tagged + [e])) == multiset(Flatten(order, tagged)) + multiset{e.1}
  {
    var n := |order| - 1;
    AtAppend(tagged, e, order[n]);
    assert At(tagged, order[n]) + [] == At(tagged, order[n]);
    MultisetShift(Flatten(order[..n], tagged + [e]), Flatten(order[..n], tagged), At(tagged, order[n]), e.1);
  }

  /** Filing rows under tags loses and doubles nothing. */
  lemma {:induction false} FlattenIsPermutation<T, R>(order: seq<T>, tagged: seq<(T, R)>)
    requires Distinct(order) && forall e :: e in tagged ==> e.0 in order
    ensures multiset(Flatten(order, tagged)) == multiset(RowsIn(tagged))
    decreases |tagged|
  {
    if tagged == [] {
      FlattenEmpty(order, tagged);
    } else {
      var n := |tagged| - 1;
      assert tagged == tagged[..n] + [tagged[n]];
      assert RowsIn(tagged) == RowsIn(tagged[..n]) + [tagged[n].1];
      FlattenIsPermutation(order, tagged[..n]);
      var i :| 0 <= i < |order| && order[i] == tagged[n].0;
      FlattenAppend(order, tagged[..n], tagged[n], i);
    }
  }

  lemma {:induction false} FlattenConcat<T, R>(a: seq<T>, b: seq<T>, tagged: seq<(T, R)>)
    ensures Flatten(a + b, tagged) == Flatten(a, tagged) + Flatten(b, tagged)
    decreases |b|
  {
    if b == [] {
      assert a + b == a;
    } else {
      var n := |b| - 1;
      assert (a + b)[..|a + b| - 1] == a + b[..n];
      FlattenConcat(a, b[..n], tagged);
      ConcatAssoc(Flatten(a, tagged), Flatten(b[..n], tagged), At(tagged, b[n]));
    }
  }

  lemma {:induction false} FlattenEmpty<T, R>(order: seq<T>, tagged: seq<(T, R)>)
    requires tagged == []
    ensures Flatten(order, tagged) == []
  {
    if order != [] {
      FlattenEmpty(order[..|order| - 1], tagged);
    }
  }

  // ----- filing the Generation and intake rows -------------------------------------------------------

  /** Each row filed under the root of its first key. */
  function ByRoot(rows: seq<Row>, root: Links<string>): seq<(string, Row)> {
    seq(|rows|, i requires 0 <= i < |rows| => (RootIn(root, KeysOf(rows[i])[0]), rows[i]))
  }

  lemma ByRootAppend(rows: seq<Row>, i: nat, root: Links<string>)
    requires i < |rows|
    ensures ByRoot(rows[..i + 1], root)
         == ByRoot(rows[..i], root) + [(RootIn(root, KeysOf(rows[i])[0]), rows[i])]
  {
    PrefixStep(rows, i);
  }

  /** groupOf: the group of a root, opened when there is none. */
  function GroupOf<K(==)>(d: Drafts<K>, r: K): Drafts<K> {
    if r in d.groups then d else Drafts(d.order + [r], d.groups[r := EMPTY_GROUP])
  }

  function PushGeneration<K(==)>(d: Drafts<K>, r: K, row: Row): Drafts<K>
    requires r in d.groups
  {
    d.(groups := d.groups[r := d.groups[r].(generations := d.groups[r].generations + [row])])
  }

  function PushIntake<K(==)>(d: Drafts<K>, r: K, row: Row): Drafts<K>
    requires r in d.groups
  {
    d.(groups := d.groups[r := d.groups[r].(intake := d.groups[r].intake + [row])])
  }

  /** `order` lists each key of the map once. */
  ghost predicate Ordered<K(!new), V>(order: seq<K>, m: map<K, V>) {
    Distinct(order) && forall k :: k in order <==> k in m
  }

  /** The drafts hold exactly the rows filed under their roots, and no draft is empty. */
  ghost predicate Files<K(!new)>(d: Drafts<K>, generations: seq<(K, Row)>, intake: seq<(K, Row)>) {
    && Ordered(d.order, d.groups)
    && (forall k :: k in d.groups <==> At(generations, k) != [] || At(intake, k) != [])
    && (forall k :: k in d.groups ==> d.groups[k] == Group(At(generations, k), At(intake, k), []))
  }

  lemma FilesGeneration<K(!new)>(d: Drafts<K>, generations: seq<(K, Row)>, intake: seq<(K, Row)>, r: K, row: Row)
    requires Files(d, generations, intake)
    ensures Files(PushGeneration(GroupOf(d, r), r, row), generations + [(r, row)], intake)
  {
    var e := PushGeneration(GroupOf(d, r), r, row);
    forall k ensures k in e.groups <==> At(generations + [(r, row)], k) != [] || At(intake, k) != [] {
      AtAppend(generations, (r, row), k);
    }
    forall k | k in e.groups
      ensures e.groups[k] == Group(At(generations + [(r, row)], k), At(intake, k), [])
    {
      AtAppend(generations, (r, row), k);
    }
  }

  lemma FilesIntake<K(!new)>(d: Drafts<K>, generations: seq<(K, Row)>, intake: seq<(K, Row)>, r: K, row: Row)
    requires Files(d, generations, intake)
    ensures Files(PushIntake(GroupOf(d, r), r, row), generations, intake + [(r, row)])
  {
    var e := PushIntake(GroupOf(d, r), r, row);
    forall k ensures k in e.groups <==> At(generations, k) != [] || At(intake + [(r, row)], k) != [] {
      AtAppend(intake, (r, row), k);
    }
    forall k | k in e.groups
      ensures e.groups[k] == Group(At(generations, k), At(intake + [(r, row)], k), [])
    {
      AtAppend(intake, (r, row), k);
    }
  }

  /** The preflight rows (or the others) of a window, in order. */
  function AuxOf(aux: seq<Row>, preflight: bool): (rows: seq<Row>)
    requires forall r :: r in aux ==> r.Aux?
    ensures forall r :: r in rows <==> r in aux && (r.purpose == Some("preflight")) == preflight
  {
    if aux == [] then []
    else
      var last := aux[|aux| - 1];
      AuxOf(aux[..|aux| - 1], preflight) + if IsPreflight(last) == preflight then [last] else []
  }

  /** The first loop of buildWindow: unites the keys of every Generation row. */
  method UniteKeys(uf: UnionFind<string>, generations: seq<Row>)
    requires uf.Valid() && uf.united == []
    modifies uf
    ensures uf.Valid() && UnitedBy(generations, uf.united, uf.root)
  {
    for i := 0 to |generations|
      invariant uf.Valid()
      invariant UnitedBy(generations[..i], uf.united, uf.root)
    {
      ghost var root0, united0 := uf.root, uf.united;
      uf.UniteAll(KeysOf(generations[i]));
      UnitedByAppend(generations[..i], united0, root0, generations[i], uf.united, uf.root);
      PrefixStep(generations, i);
    }
    PrefixAll(generations);
  }

  lemma UnitedByAppend(generations: seq<Row>, united: seq<(string, string)>, root: Links<string>, g: Row,
                       united': seq<(string, string)>, root': Links<string>)
    requires UnitedBy(generations, united, root) && Joins(root', united') && Coarser(root, root')
    requires forall k :: k in KeysOf(g) ==> RootIn(root', k) == RootIn(root', KeysOf(g)[0])
    requires forall e :: e in united' ==> e in united || (e.0 in KeysOf(g) && e.1 in KeysOf(g))
    ensures UnitedBy(generations + [g], united', root')
  {
    forall e | e in united' ensures exists h :: h in generations + [g] && e.0 in KeysOf(h) && e.1 in KeysOf(h) {
      if e in united {
        var h :| h in generations && e.0 in KeysOf(h) && e.1 in KeysOf(h);
        assert h in generations + [g];
      } else {
        assert g in generations + [g];
      }
    }
  }

  /** uf.find(key), seen from the roots the uniting loop left behind. */
  method FindRoot(uf: UnionFind<string>, key: string, ghost root: Links<string>) returns (r: string)
    requires uf.Valid() && SameRoots(uf.root, root)
    modifies uf
    ensures uf.Valid() && SameRoots(uf.root, root) && r == RootIn(root, key)
  {
    assert RootIn(uf.root, key) == RootIn(root, key);
    r := uf.Find(key);
  }

  /** groupOf(generationKeys(g)[0]).generations.push(g), for every Generation row. */
  method FileGenerations(uf: UnionFind<string>, rows: seq<Row>, ghost root: Links<string>) returns (d: Drafts<string>)
    requires uf.Valid() && SameRoots(uf.root, root)
    modifies uf
    ensures uf.Valid() && SameRoots(uf.root, root)
    ensures Files(d, ByRoot(rows, root), [])
  {
    d := Drafts([], map[]);
    for i := 0 to |rows|
      invariant uf.Valid() && SameRoots(uf.root, root)
      invariant Files(d, ByRoot(rows[..i], root), [])
    {
      var r := FindRoot(uf, KeysOf(rows[i])[0], root);
      FilesGeneration(d, ByRoot(rows[..i], root), [], r, rows[i]);
      ByRootAppend(rows, i, root);
      d := PushGeneration(GroupOf(d, r), r, rows[i]);
    }
    PrefixAll(rows);
  }

  /** groupOf(intake key).intake.push(r), for every intake row. */
  method FileIntake(uf: UnionFind<string>, d0: Drafts<string>, rows: seq<Row>,
                    ghost generations: seq<(string, Row)>, ghost root: Links<string>) returns (d: Drafts<string>)
    requires uf.Valid() && SameRoots(uf.root, root)
    requires Files(d0, generations, [])
    modifies uf
    ensures Files(d, generations, ByRoot(rows, root))
  {
    d := d0;
    assert ByRoot(rows[..0], root) == [];
    for i := 0 to |rows|
      invariant uf.Valid() && SameRoots(uf.root, root)
      invariant Files(d, generations, ByRoot(rows[..i], root))
    {
      var r := FindRoot(uf, KeysOf(rows[i])[0], root);
      FilesIntake(d, generations, ByRoot(rows[..i], root), r, rows[i]);
      ByRootAppend(rows, i, root);
      d := PushIntake(GroupOf(d, r), r, rows[i]);
    }
    PrefixAll(rows);
  }

  /** A find adds keys to the root map but moves no key's root. */
  ghost predicate SameRoots(now: Links<string>, root: Links<string>) {
    forall k {:trigger RootIn(now, k)} :: RootIn(now, k) == RootIn(root, k)
  }

  /** The grouping loops of buildWindow. */
  method GroupRows(input: WindowRows)
    returns (d: Drafts<string>, ghost root: Links<string>, ghost united: seq<(string, string)>)
    requires WellFormed(input)
    ensures UnitedBy(input.generations, united, root)
    ensures Files(d, ByRoot(input.generations, root), ByRoot(AuxOf(input.aux, false), root))
  {
    var uf := new UnionFind<string>();
    UniteKeys(uf, input.generations);
    root, united := uf.root, uf.united;
    d := FileGenerations(uf, input.generations, root);
    d := FileIntake(uf, d, AuxOf(input.aux, false), ByRoot(input.generations, root), root);
  }

  // ----- placing the preflight rows ---------------------------------------------------------------

  /** The users named by some of the rows. */
  ghost predicate NamesUser(rows: seq<Row>, u: string) {
    exists r :: r in rows && r.userId == Some(u)
  }

  /** The user owns a Generation or intake row of the draft. */
  ghost predicate HasUser(g: Group, u: string) {
    u != "" && (NamesUser(g.generations, u) || NamesUser(g.intake, u))
  }

  /** The drafts in which the user appears, in order. */
  ghost function DraftsOf(order: seq<string>, groups: map<string, Group>, u: string): seq<string> {
    if order == [] then []
    else
      var n := |order| - 1;
      DraftsOf(order[..n], groups, u)
      + if order[n] in groups && HasUser(groups[order[n]], u) then [order[n]] else []
  }

  /** Where a preflight row goes. */
  datatype Place = InDraft(root: string) | Unattributed(user: string)

  ghost function PlaceOf(d: Drafts<string>, r: Row): Place {
    var candidates := if Given(r.userId) then DraftsOf(d.order, d.groups, r.userId.value) else [];
    if |candidates| == 1 then InDraft(candidates[0])
    else Unattributed(if r.userId.Some? then r.userId.value else "")
  }

  ghost function ByPlace(rows: seq<Row>, d: Drafts<string>): seq<(Place, Row)> {
    seq(|rows|, i requires 0 <= i < |rows| => (PlaceOf(d, rows[i]), rows[i]))
  }

  lemma ByPlaceAppend(rows: seq<Row>, i: nat, d: Drafts<string>)
    requires i < |rows|
    ensures ByPlace(rows[..i + 1], d) == ByPlace(rows[..i], d) + [(PlaceOf(d, rows[i]), rows[i])]
  {
    PrefixStep(rows, i);
  }

  function Entry(byUser: map<string, seq<string>>, u: string): seq<string> {
    if u in byUser then byUser[u] else []
  }

  /** The distinct users of a draft's Generation and intake rows. */
  method UsersOf(g: Group) returns (users: set<string>)
    ensures forall u :: u in users <==> HasUser(g, u)
  {
    var rows := g.generations + g.intake;
    users := {};
    for i := 0 to |rows|
      invariant forall u :: u in users <==> u != "" && NamesUser(rows[..i], u)
    {
      PrefixStep(rows, i);
      if Given(rows[i].userId) {
        users := users + {rows[i].userId.value};
      }
    }
    PrefixAll(rows);
  }

  /** draftsByUser: for each user, the drafts in which the user appears. */
  method IndexUsers(d: Drafts<string>) returns (byUser: map<string, seq<string>>)
    requires forall k :: k in d.order ==> k in d.groups
    ensures forall u :: Entry(byUser, u) == DraftsOf(d.order, d.groups, u)
  {
    byUser := map[];
    for i := 0 to |d.order|
      invariant forall u :: Entry(byUser, u) == DraftsOf(d.order[..i], d.groups, u)
    {
      var k := d.order[i];
      PrefixStep(d.order, i);
      var users := UsersOf(d.groups[k]);
      byUser := AddDraft(byUser, users, k);
    }
    PrefixAll(d.order);
  }

  method AddDraft(byUser: map<string, seq<string>>, users: set<string>, k: string) returns (r: map<string, seq<string>>)
    ensures forall u :: Entry(r, u) == Entry(byUser, u) + if u in users then [k] else []
  {
    r := byUser;
    var todo := users;
    while todo != {}
      invariant todo <= users
      invariant forall u :: Entry(r, u) == Entry(byUser, u) + if u in users - todo then [k] else []
      decreases todo
    {
      var u :| u in todo;
      r := r[u := Entry(r, u) + [k]];
      todo := todo - {u};
    }
  }

  lemma {:induction false} DraftsOfInGroups(order: seq<string>, groups: map<string, Group>, u: string, k: string)
    ensures k in DraftsOf(order, groups, u) <==> k in order && k in groups && HasUser(groups[k], u)
  {
    if order != [] {
      var n := |order| - 1;
      assert order == order[..n] + [order[n]];
      DraftsOfInGroups(order[..n], groups, u, k);
    }
  }

  /** Every preflight row sits in the list its place names, and in no other. */
  ghost predicate Places(d: Drafts<string>, loose: Loose, before: Drafts<string>, placed: seq<(Place, Row)>) {
    && d.order == before.order && d.groups.Keys == before.groups.Keys
    && (forall k :: k in d.groups ==>
        d.groups[k] == before.groups[k].(preflight := At(placed, InDraft(k))))
    && Ordered(loose.order, loose.rows)
    && (forall u :: u in loose.rows <==> At(placed, Unattributed(u)) != [])
    && (forall u :: u in loose.rows ==> loose.rows[u] == At(placed, Unattributed(u)))
  }

  lemma PlacesInDraft(d: Drafts<string>, loose: Loose, before: Drafts<string>, placed: seq<(Place, Row)>, k: string,
                      r: Row)
    requires Places(d, loose, before, placed) && k in d.groups
    ensures Places(PushPreflight(d, k, r), loose, before, placed + [(InDraft(k), r)])
  {
    var e := PushPreflight(d, k, r);
    forall j | j in e.groups
      ensures e.groups[j] == before.groups[j].(preflight := At(placed + [(InDraft(k), r)], InDraft(j)))
    {
      AtAppend(placed, (InDraft(k), r), InDraft(j));
    }
    forall u ensures At(placed + [(InDraft(k), r)], Unattributed(u)) == At(placed, Unattributed(u)) {
      AtAppend(placed, (InDraft(k), r), Unattributed(u));
    }
  }

  lemma PlacesLoose(d: Drafts<string>, loose: Loose, before: Drafts<string>, placed: seq<(Place, Row)>, u: string,
                    r: Row)
    requires Places(d, loose, before, placed)
    ensures Places(d, PushLoose(loose, u, r), before, placed + [(Unattributed(u), r)])
  {
    forall j ensures At(placed + [(Unattributed(u), r)], InDraft(j)) == At(placed, InDraft(j)) {
      AtAppend(placed, (Unattributed(u), r), InDraft(j));
    }
    forall v ensures At(placed + [(Unattributed(u), r)], Unattributed(v))
                  == At(placed, Unattributed(v)) + if u == v then [r] else [] {
      AtAppend(placed, (Unattributed(u), r), Unattributed(v));
    }
  }

  function PushPreflight(d: Drafts<string>, k: string, r: Row): Drafts<string>
    requires k in d.groups
  {
    d.(groups := d.groups[k := d.groups[k].(preflight := d.groups[k].preflight + [r])])
  }

  function PushLoose(loose: Loose, u: string, r: Row): Loose {
    if u in loose.rows then loose.(rows := loose.rows[u := loose.rows[u] + [r]])
    else Loose(loose.order + [u], loose.rows[u := [r]])
  }

  /** The preflight loop of buildWindow. */
  method PlacePreflight(d0: Drafts<string>, rows: seq<Row>)
    returns (d: Drafts<string>, loose: Loose, byUser: map<string, seq<string>>)
    requires Ordered(d0.order, d0.groups) && forall k :: k in d0.groups ==> d0.groups[k].preflight == []
    ensures Places(d, loose, d0, ByPlace(rows, d0))
    ensures forall u :: Entry(byUser, u) == DraftsOf(d0.order, d0.groups, u)
  {
    byUser := IndexUsers(d0);
    d, loose := d0, Loose([], map[]);
    for i := 0 to |rows|
      invariant Places(d, loose, d0, ByPlace(rows[..i], d0))
    {
      var r := rows[i];
      ByPlaceAppend(rows, i, d0);
      var candidates := if Given(r.userId) then Entry(byUser, r.userId.value) else [];
      if |candidates| == 1 {
        DraftsOfInGroups(d0.order, d0.groups, r.userId.value, candidates[0]);
        PlacesInDraft(d, loose, d0, ByPlace(rows[..i], d0), candidates[0], r);
        d := PushPreflight(d, candidates[0], r);
      } else {
        var u := if r.userId.Some? then r.userId.value else "";
        PlacesLoose(d, loose, d0, ByPlace(rows[..i], d0), u, r);
        loose := PushLoose(loose, u, r);
      }
    }
    PrefixAll(rows);
  }
}
