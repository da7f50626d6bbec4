/**
 * The windows of a cost report (scripts/cost-report/lib/aggregate.ts): which window owns an aux
 * row, which windows overlap, and the grand totals.
 */
module CostWindows {
  import opened Options
  import opened Prefixes
  import opened CostTotals
  import opened CostGrouping
  import opened CostReport

  // ----- the owner of an aux row ---------------------------------------------------------------------

  ghost predicate Fetched(windows: seq<WindowRows>, id: string, i: nat) {
    i < |windows| && exists r :: r in windows[i].aux && r.id == id
  }

  /** A Generation row of the window names the intake. */
  ghost predicate Names(w: WindowRows, intakeId: Option<string>) {
    Given(intakeId) && exists g :: g in w.generations && g.intakeId == intakeId
  }

  /** `i` fetched the id and no earlier window did. */
  ghost predicate FirstFetched(windows: seq<WindowRows>, id: string, i: nat) {
    Fetched(windows, id, i) && forall j: nat :: j < i ==> !Fetched(windows, id, j)
  }

  /** `i` is the first of the windows that fetched the id whose Generation rows name the intake. */
  ghost predicate FirstNaming(windows: seq<WindowRows>, id: string, intakeId: Option<string>, i: nat) {
    && Fetched(windows, id, i) && Names(windows[i], intakeId)
    && forall j: nat :: j < i && Fetched(windows, id, j) ==> !Names(windows[j], intakeId)
  }

  /** The window for the row: the first that fetched it and names its intake, else the first that fetched it. */
  ghost predicate Owns(windows: seq<WindowRows>, r: Row, i: nat) {
    || FirstNaming(windows, r.id, r.intakeId, i)
    || (FirstFetched(windows, r.id, i)
        && forall j: nat :: Fetched(windows, r.id, j) ==> !Names(windows[j], r.intakeId))
  }

  /** The first of the rows with the id. */
  function FirstWith(rows: seq<Row>, id: string): (r: Option<Row>)
    ensures r.Some? ==> r.value in rows && r.value.id == id
    ensures r.None? ==> !HasId(rows, id)
  {
    if rows == [] then None
    else
      var n := |rows| - 1;
      var earlier := FirstWith(rows[..n], id);
      if earlier.Some? then earlier else if rows[n].id == id then Some(rows[n]) else None
  }

  /** The window that owns the id, as the first row fetched under it says. */
  ghost predicate OwnsId(windows: seq<WindowRows>, id: string, i: nat) {
    var first := FirstWith(AllAux(windows), id);
    first.Some? && Owns(windows, first.value, i)
  }

  /** A row fetched for several windows is the same document each time. */
  ghost predicate SameDocuments(windows: seq<WindowRows>) {
    forall a, b {:trigger a in AllAux(windows), b in AllAux(windows)} ::
      a in AllAux(windows) && b in AllAux(windows) && a.id == b.id ==> a == b
  }

  lemma {:induction false} FirstWithConcat(a: seq<Row>, b: seq<Row>, id: string)
    ensures FirstWith(a + b, id) == if FirstWith(a, id).Some? then FirstWith(a, id) else FirstWith(b, id)
    decreases |b|
  {
    if b == [] {
      assert a + b == a;
    } else {
      var n := |b| - 1;
      assert (a + b)[..|a + b| - 1] == a + b[..n];
      FirstWithConcat(a, b[..n], id);
    }
  }

  predicate Ascending(xs: seq<nat>) {
    forall i, j :: 0 <= i < j < |xs| ==> xs[i] < xs[j]
  }

  function SeenAt(seenIn: map<string, seq<nat>>, id: string): seq<nat> {
    if id in seenIn then seenIn[id] else []
  }

  /** seenIn lists, for each id, the windows that fetched it, in window order. */
  ghost predicate SeenBy(seenIn: map<string, seq<nat>>, windows: seq<WindowRows>) {
    forall id ::
      && Ascending(SeenAt(seenIn, id))
      && forall i: nat :: i in SeenAt(seenIn, id) <==> Fetched(windows, id, i)
  }

  predicate HasId(rows: seq<Row>, id: string) {
    exists r :: r in rows && r.id == id
  }

  /** The first loop of assignAuxRows. */
  method SeenIn(windows: seq<WindowRows>) returns (seenIn: map<string, seq<nat>>)
    ensures SeenBy(seenIn, windows)
  {
    seenIn := map[];
    for i := 0 to |windows|
      invariant SeenBy(seenIn, windows[..i])
    {
      ghost var before := seenIn;
      seenIn := SeenInWindow(seenIn, windows[i].aux, i);
      SeenByAppend(before, seenIn, windows[..i], windows[i]);
      PrefixStep(windows, i);
    }
    PrefixAll(windows);
  }

  method SeenInWindow(before: map<string, seq<nat>>, aux: seq<Row>, k: nat) returns (seenIn: map<string, seq<nat>>)
    requires forall id :: k !in SeenAt(before, id)
    ensures forall id :: SeenAt(seenIn, id) == SeenAt(before, id) + if HasId(aux, id) then [k] else []
  {
    seenIn := before;
    for j := 0 to |aux|
      invariant forall id :: SeenAt(seenIn, id) == SeenAt(before, id) + if HasId(aux[..j], id) then [k] else []
    {
      var list := SeenAt(seenIn, aux[j].id);
      SeenNext(before, seenIn, aux, j, k);
      seenIn := seenIn[aux[j].id := if k in list then list else list + [k]];
    }
    PrefixAll(aux);
  }

  lemma SeenNext(before: map<string, seq<nat>>, seenIn: map<string, seq<nat>>, aux: seq<Row>, j: nat, k: nat)
    requires j < |aux| && forall id :: k !in SeenAt(before, id)
    requires forall id :: SeenAt(seenIn, id) == SeenAt(before, id) + if HasId(aux[..j], id) then [k] else []
    ensures var list := SeenAt(seenIn, aux[j].id);
      var after := seenIn[aux[j].id := if k in list then list else list + [k]];
      forall id :: SeenAt(after, id) == SeenAt(before, id) + if HasId(aux[..j + 1], id) then [k] else []
  {
    PrefixStep(aux, j);
    HasIdNext(aux[..j], aux[j]);
  }

  /** The places listed for one id, before and after a window that fetched it or did not. */
  lemma SeenAppend(xs: seq<nat>, windows: seq<WindowRows>, w: WindowRows, id: string)
    requires Ascending(xs) && forall i: nat :: i in xs <==> Fetched(windows, id, i)
    ensures var ys := xs + if HasId(w.aux, id) then [|windows|] else [];
      Ascending(ys) && forall i: nat :: i in ys <==> Fetched(windows + [w], id, i)
  {
    forall j | 0 <= j < |xs| ensures xs[j] < |windows| {
      assert xs[j] in xs;
    }
    forall i: nat ensures Fetched(windows + [w], id, i)
        <==> Fetched(windows, id, i) || (i == |windows| && HasId(w.aux, id)) {
      assert i < |windows| ==> (windows + [w])[i] == windows[i];
    }
  }

  lemma SeenByAppend(before: map<string, seq<nat>>, seenIn: map<string, seq<nat>>, windows: seq<WindowRows>,
                     w: WindowRows)
    requires SeenBy(before, windows)
    requires forall id :: SeenAt(seenIn, id) == SeenAt(before, id) + if HasId(w.aux, id) then [|windows|] else []
    ensures SeenBy(seenIn, windows + [w])
  {
    forall id
      ensures Ascending(SeenAt(seenIn, id))
      ensures forall i: nat :: i in SeenAt(seenIn, id) <==> Fetched(windows + [w], id, i)
    {
      SeenAppend(SeenAt(before, id), windows, w, id);
    }
  }

  predicate InRange(idxs: seq<nat>, n: nat) {
    forall j :: 0 <= j < |idxs| ==> idxs[j] < n
  }

  function FirstIn(idxs: seq<nat>, windows: seq<WindowRows>, intakeId: Option<string>): Option<nat>
    requires InRange(idxs, |windows|)
  {
    if idxs == [] then None
    else if exists g :: g in windows[idxs[0]].generations && g.intakeId == intakeId then Some(idxs[0])
    else FirstIn(idxs[1..], windows, intakeId)
  }

  /** idxs.find(...): the first of the listed windows whose Generation rows name the intake. */
  lemma {:induction false} FirstInMeaning(idxs: seq<nat>, windows: seq<WindowRows>, intakeId: Option<string>)
    requires Given(intakeId) && Ascending(idxs) && InRange(idxs, |windows|)
    ensures var f := FirstIn(idxs, windows, intakeId);
      && (f.Some? ==> f.value in idxs && Names(windows[f.value], intakeId)
                      && forall j :: j in idxs && j < f.value ==> !Names(windows[j], intakeId))
      && (f.None? ==> forall j :: j in idxs ==> !Names(windows[j], intakeId))
  {
    if idxs != [] {
      assert idxs == [idxs[0]] + idxs[1..];
      FirstInMeaning(idxs[1..], windows, intakeId);
      assert forall j :: j in idxs[1..] ==> j > idxs[0];
    }
  }

  /** The window the second loop of assignAuxRows chooses for a row. */
  function Chosen(idxs: seq<nat>, windows: seq<WindowRows>, r: Row): nat
    requires idxs != [] && InRange(idxs, |windows|)
  {
    var linked := if Given(r.intakeId) then FirstIn(idxs, windows, r.intakeId) else None;
    if linked.Some? then linked.value else idxs[0]
  }

  lemma ChosenOwns(idxs: seq<nat>, windows: seq<WindowRows>, r: Row)
    requires idxs != [] && Ascending(idxs) && InRange(idxs, |windows|)
    requires forall i: nat :: i in idxs <==> Fetched(windows, r.id, i)
    ensures Owns(windows, r, Chosen(idxs, windows, r))
  {
    assert idxs[0] in idxs;
    if Given(r.intakeId) {
      FirstInMeaning(idxs, windows, r.intakeId);
    }
    assert forall j: nat :: j in idxs ==> j >= idxs[0];
  }

  /** An id has at most one owner. */
  lemma OneOwner(windows: seq<WindowRows>, id: string, i: nat, j: nat)
    requires OwnsId(windows, id, i) && OwnsId(windows, id, j)
    ensures i == j
  {
    assert Fetched(windows, id, i) && Fetched(windows, id, j);
  }

  function KeepOwned(aux: seq<Row>, owner: map<string, nat>, i: nat): seq<Row> {
    if aux == [] then []
    else
      var last := aux[|aux| - 1];
      KeepOwned(aux[..|aux| - 1], owner, i) + if last.id in owner && owner[last.id] == i then [last] else []
  }

  lemma {:induction false} KeepOwnedKeeps(aux: seq<Row>, owner: map<string, nat>, i: nat)
    ensures forall r :: r in KeepOwned(aux, owner, i) <==> r in aux && r.id in owner && owner[r.id] == i
    ensures UniqueIds(aux) ==> UniqueIds(KeepOwned(aux, owner, i))
  {
    if aux != [] {
      var n := |aux| - 1;
      KeepOwnedKeeps(aux[..n], owner, i);
      assert aux == aux[..n] + [aux[n]];
      var kept := KeepOwned(aux[..n], owner, i);
      if UniqueIds(aux) {
        forall j | 0 <= j < |kept| ensures kept[j].id != aux[n].id {
          assert kept[j] in kept;
          var m :| 0 <= m < n && aux[m] == kept[j];
        }
      }
    }
  }

  /** `w` is window `i` with exactly the aux rows whose ids it owns. */
  ghost predicate Assigned(windows: seq<WindowRows>, w: WindowRows, i: nat)
    requires i < |windows|
  {
    && WellFormed(w) && w == windows[i].(aux := w.aux)
    && forall r :: r in w.aux <==> r in windows[i].aux && OwnsId(windows, r.id, i)
  }

  ghost predicate Owned(windows: seq<WindowRows>, id: string) {
    exists i: nat :: OwnsId(windows, id, i)
  }

  /** A row fetched for several windows, and the one it is counted in. */
  datatype Shared = Shared(id: string, windows: seq<nat>, countedIn: nat)

  ghost predicate FetchedTwice(windows: seq<WindowRows>, id: string) {
    exists i: nat, j: nat :: i < j && Fetched(windows, id, i) && Fetched(windows, id, j)
  }

  ghost predicate SharedFits(windows: seq<WindowRows>, e: Shared) {
    && Ascending(e.windows) && (forall i: nat :: i in e.windows <==> Fetched(windows, e.id, i))
    && FetchedTwice(windows, e.id) && OwnsId(windows, e.id, e.countedIn)
  }

  predicate Lists(shared: seq<Shared>, id: string) {
    exists e :: e in shared && e.id == id
  }

  predicate SharedOnce(shared: seq<Shared>) {
    forall i, j :: 0 <= i < j < |shared| ==> shared[i].id != shared[j].id
  }

  /** What the second loop has found out after the rows, the first of all that were fetched. */
  ghost predicate OwnersOf(owner: map<string, nat>, shared: seq<Shared>, windows: seq<WindowRows>, rows: seq<Row>) {
    rows <= AllAux(windows) && OwnersAre(owner, windows, rows) && SharedOf(shared, windows, owner.Keys)
  }

  ghost predicate OwnersAre(owner: map<string, nat>, windows: seq<WindowRows>, rows: seq<Row>) {
    && (forall id :: id in owner <==> HasId(rows, id))
    && (forall id :: id in owner ==> OwnsId(windows, id, owner[id]))
  }

  ghost predicate SharedOf(shared: seq<Shared>, windows: seq<WindowRows>, ids: set<string>) {
    && SharedOnce(shared)
    && (forall e :: e in shared ==> e.id in ids && SharedFits(windows, e))
    && (forall id :: id in ids && FetchedTwice(windows, id) ==> Lists(shared, id))
  }

  lemma KeptAssigned(windows: seq<WindowRows>, owner: map<string, nat>, i: nat)
    requires i < |windows| && WellFormed(windows[i])
    requires forall r :: r in windows[i].aux ==> r.id in owner && OwnsId(windows, r.id, owner[r.id])
    ensures Assigned(windows, windows[i].(aux := KeepOwned(windows[i].aux, owner, i)), i)
  {
    var kept := KeepOwned(windows[i].aux, owner, i);
    KeepOwnedKeeps(windows[i].aux, owner, i);
    forall r | r in windows[i].aux ensures owner[r.id] == i <==> OwnsId(windows, r.id, i) {
      if OwnsId(windows, r.id, i) {
        OneOwner(windows, r.id, i, owner[r.id]);
      }
    }
  }

  /**
   * assignAuxRows: every fetched id stays in the one window that owns it and leaves the others;
   * nothing else changes. The rows fetched for more than one window are listed, each once.
   */
  method AssignAuxRows(windows: seq<WindowRows>) returns (out: seq<WindowRows>, shared: seq<Shared>)
    requires forall w :: w in windows ==> WellFormed(w)
    ensures |out| == |windows| && forall i :: 0 <= i < |out| ==> Assigned(windows, out[i], i)
    ensures forall r :: r in AllAux(windows) ==> Owned(windows, r.id)
    ensures SharedOnce(shared) && forall e :: e in shared ==> SharedFits(windows, e)
    ensures forall r :: r in AllAux(windows) && FetchedTwice(windows, r.id) ==> Lists(shared, r.id)
  {
    var seenIn := SeenIn(windows);
    var owner;
    owner, shared := FindOwners(seenIn, windows);
    out := [];
    for i := 0 to |windows|
      invariant |out| == i && forall j :: 0 <= j < i ==> Assigned(windows, out[j], j)
    {
      forall r | r in windows[i].aux ensures r.id in owner {
        AllAuxMember(windows, r);
        assert HasId(AllAux(windows), r.id);
      }
      KeptAssigned(windows, owner, i);
      out := out + [windows[i].(aux := KeepOwned(windows[i].aux, owner, i))];
    }
    forall r | r in AllAux(windows) ensures r.id in owner {
      assert HasId(AllAux(windows), r.id);
    }
  }

  lemma {:induction false} AuxPrefix(windows: seq<WindowRows>, i: nat)
    requires i < |windows|
    ensures AllAux(windows[..i]) + windows[i].aux <= AllAux(windows)
  {
    var n := |windows| - 1;
    if i < n {
      AuxPrefix(windows[..n], i);
      assert windows[..n][..i] == windows[..i];
    }
  }

  /** The second loop of assignAuxRows. */
  method FindOwners(seenIn: map<string, seq<nat>>, windows: seq<WindowRows>)
    returns (owner: map<string, nat>, shared: seq<Shared>)
    requires SeenBy(seenIn, windows)
    ensures OwnersOf(owner, shared, windows, AllAux(windows))
  {
    owner, shared := map[], [];
    for i := 0 to |windows|
      invariant OwnersOf(owner, shared, windows, AllAux(windows[..i]))
    {
      AuxPrefix(windows, i);
      PrefixStep(windows, i);
      owner, shared := OwnersInWindow(owner, shared, seenIn, windows, i);
    }
    PrefixAll(windows);
  }

  method OwnersInWindow(owner0: map<string, nat>, shared0: seq<Shared>, seenIn: map<string, seq<nat>>,
                        windows: seq<WindowRows>, i: nat)
    returns (owner: map<string, nat>, shared: seq<Shared>)
    requires SeenBy(seenIn, windows) && i < |windows|
    requires OwnersOf(owner0, shared0, windows, AllAux(windows[..i]))
    requires AllAux(windows[..i]) + windows[i].aux <= AllAux(windows)
    ensures OwnersOf(owner, shared, windows, AllAux(windows[..i]) + windows[i].aux)
  {
    owner, shared := owner0, shared0;
    ghost var before := AllAux(windows[..i]);
    var aux := windows[i].aux;
    assert before + aux[..0] == before;
    for j := 0 to |aux|
      invariant OwnersOf(owner, shared, windows, before + aux[..j])
    {
      NextRow(before, aux, j, AllAux(windows));
      if aux[j].id !in owner {
        var idxs := SeenAt(seenIn, aux[j].id);
        SeenIsFetched(seenIn, windows, aux[j], i);
        var c := Chosen(idxs, windows, aux[j]);
        OwnerFound(owner, shared, windows, before + aux[..j], aux[j], idxs);
        owner := owner[aux[j].id := c];
        if |idxs| > 1 {
          shared := shared + [Shared(aux[j].id, idxs, c)];
        }
      } else {
        OwnerKnown(owner, shared, windows, before + aux[..j], aux[j]);
      }
    }
    PrefixAll(aux);
  }

  lemma {:induction false} NextRow(before: seq<Row>, aux: seq<Row>, j: nat, all: seq<Row>)
    requires j < |aux| && before + aux <= all
    ensures before + aux[..j + 1] == (before + aux[..j]) + [aux[j]] <= all
  {
  }

  lemma {:induction false} SeenIsFetched(seenIn: map<string, seq<nat>>, windows: seq<WindowRows>, r: Row, i: nat)
    requires SeenBy(seenIn, windows) && i < |windows| && r in windows[i].aux
    ensures var idxs := SeenAt(seenIn, r.id);
      && idxs != [] && Ascending(idxs) && InRange(idxs, |windows|)
      && forall k: nat :: k in idxs <==> Fetched(windows, r.id, k)
  {
    var idxs := SeenAt(seenIn, r.id);
    assert Fetched(windows, r.id, i);
    assert i in idxs && forall k :: 0 <= k < |idxs| ==> idxs[k] in idxs;
  }

  lemma {:induction false} HasIdNext(rows: seq<Row>, r: Row)
    ensures forall id :: HasId(rows + [r], id) <==> HasId(rows, id) || id == r.id
  {
    forall id ensures HasId(rows + [r], id) <==> HasId(rows, id) || id == r.id {
      assert r in rows + [r];
      if HasId(rows, id) {
        var x :| x in rows && x.id == id;
        assert x in rows + [r];
      }
    }
  }

  lemma {:induction false} OwnerKnown(owner: map<string, nat>, shared: seq<Shared>, windows: seq<WindowRows>,
                                      rows: seq<Row>, r: Row)
    requires OwnersOf(owner, shared, windows, rows) && rows + [r] <= AllAux(windows) && r.id in owner
    ensures OwnersOf(owner, shared, windows, rows + [r])
  {
    HasIdNext(rows, r);
  }

  /** The first row of an id decides its owner. */
  lemma {:induction false} FirstDecides(windows: seq<WindowRows>, rows: seq<Row>, r: Row, idxs: seq<nat>)
    requires rows + [r] <= AllAux(windows) && !HasId(rows, r.id)
    requires idxs != [] && Ascending(idxs) && InRange(idxs, |windows|)
    requires forall k: nat :: k in idxs <==> Fetched(windows, r.id, k)
    ensures OwnsId(windows, r.id, Chosen(idxs, windows, r))
  {
    var all := AllAux(windows);
    FirstWithConcat(rows, [r], r.id);
    FirstWithConcat(rows + [r], all[|rows| + 1..], r.id);
    assert all == (rows + [r]) + all[|rows| + 1..];
    assert [r][..0] == [] && FirstWith([r], r.id) == Some(r);
    ChosenOwns(idxs, windows, r);
  }

  lemma {:induction false} TwiceIffTwo(windows: seq<WindowRows>, id: string, idxs: seq<nat>)
    requires Ascending(idxs) && forall k: nat :: k in idxs <==> Fetched(windows, id, k)
    ensures FetchedTwice(windows, id) <==> |idxs| > 1
  {
    if i: nat, j: nat :| i < j && Fetched(windows, id, i) && Fetched(windows, id, j) {
      assert i in idxs && j in idxs;
    }
    if |idxs| > 1 {
      assert idxs[0] in idxs && idxs[1] in idxs;
    }
  }

  /** The next row has an id that was not met before. */
  lemma {:induction false} OwnerFound(owner: map<string, nat>, shared: seq<Shared>, windows: seq<WindowRows>,
                                      rows: seq<Row>, r: Row, idxs: seq<nat>)
    requires OwnersOf(owner, shared, windows, rows) && rows + [r] <= AllAux(windows) && r.id !in owner
    requires idxs != [] && Ascending(idxs) && InRange(idxs, |windows|)
    requires forall k: nat :: k in idxs <==> Fetched(windows, r.id, k)
    ensures var c := Chosen(idxs, windows, r);
      OwnersOf(owner[r.id := c], if |idxs| > 1 then shared + [Shared(r.id, idxs, c)] else shared, windows, rows + [r])
  {
    var c := Chosen(idxs, windows, r);
    FirstDecides(windows, rows, r, idxs);
    TwiceIffTwo(windows, r.id, idxs);
    if |idxs| > 1 {
      assert SharedFits(windows, Shared(r.id, idxs, c));
      SharedNext(shared, windows, owner.Keys, Shared(r.id, idxs, c));
    } else {
      NotShared(shared, windows, owner.Keys, r.id);
    }
    OwnerNext(owner, windows, rows, r, c);
  }

  lemma {:induction false} OwnerNext(owner: map<string, nat>, windows: seq<WindowRows>, rows: seq<Row>, r: Row, c: nat)
    requires OwnersAre(owner, windows, rows) && OwnsId(windows, r.id, c)
    ensures OwnersAre(owner[r.id := c], windows, rows + [r]) && owner[r.id := c].Keys == owner.Keys + {r.id}
  {
    HasIdNext(rows, r);
  }

  lemma {:induction false} NotShared(shared: seq<Shared>, windows: seq<WindowRows>, ids: set<string>, id: string)
    requires SharedOf(shared, windows, ids) && !FetchedTwice(windows, id)
    ensures SharedOf(shared, windows, ids + {id})
  {
  }

  lemma {:induction false} SharedNext(shared: seq<Shared>, windows: seq<WindowRows>, ids: set<string>, e: Shared)
    requires SharedOf(shared, windows, ids) && e.id !in ids && SharedFits(windows, e)
    ensures SharedOf(shared + [e], windows, ids + {e.id})
  {
    ListsNext(shared, e);
    SharedOnceNext(shared, e);
  }

  lemma SharedOnceNext(shared: seq<Shared>, e: Shared)
    requires SharedOnce(shared) && forall x :: x in shared ==> x.id != e.id
    ensures SharedOnce(shared + [e])
  {
  }

  lemma {:induction false} ListsNext(shared: seq<Shared>, e: Shared)
    ensures forall id :: Lists(shared, id) || id == e.id ==> Lists(shared + [e], id)
  {
    forall id | Lists(shared, id) || id == e.id ensures Lists(shared + [e], id) {
      assert e in shared + [e];
      if Lists(shared, id) {
        var x :| x in shared && x.id == id;
        assert x in shared + [e];
      }
    }
  }

  // ----- every row is counted once -----------------------------------------------------------------

  function AllAux(windows: seq<WindowRows>): seq<Row> {
    if windows == [] then [] else AllAux(windows[..|windows| - 1]) + windows[|windows| - 1].aux
  }

  function AllGenerations(windows: seq<WindowRows>): seq<Row> {
    if windows == [] then [] else AllGenerations(windows[..|windows| - 1]) + windows[|windows| - 1].generations
  }

  lemma {:induction false} AllAuxMember(windows: seq<WindowRows>, r: Row)
    ensures r in AllAux(windows) <==> exists i :: 0 <= i < |windows| && r in windows[i].aux
  {
    if windows != [] {
      AllAuxMember(windows[..|windows| - 1], r);
    }
  }

  lemma {:induction false} AllGenerationsMember(windows: seq<WindowRows>, r: Row)
    ensures r in AllGenerations(windows) <==> exists i :: 0 <= i < |windows| && r in windows[i].generations
  {
    if windows != [] {
      AllGenerationsMember(windows[..|windows| - 1], r);
    }
  }

  lemma UniqueIdsConcat(a: seq<Row>, b: seq<Row>)
    requires UniqueIds(a) && UniqueIds(b) && forall x, y :: x in a && y in b ==> x.id != y.id
    ensures UniqueIds(a + b)
  {
    var c := a + b;
    forall i, j | 0 <= i < j < |c| ensures c[i].id != c[j].id {
      if i < |a| <= j {
        assert c[i] in a && c[j] in b;
      }
    }
  }

  /** The id sits in the aux rows of at most one window. */
  ghost predicate AuxApart(windows: seq<WindowRows>) {
    forall i, j, a, b :: 0 <= i < j < |windows| && a in windows[i].aux && b in windows[j].aux ==> a.id != b.id
  }

  lemma {:induction false} AuxApartUnique(windows: seq<WindowRows>)
    requires AuxApart(windows) && forall w :: w in windows ==> UniqueIds(w.aux)
    ensures UniqueIds(AllAux(windows))
  {
    if windows != [] {
      var n := |windows| - 1;
      AuxApartUnique(windows[..n]);
      forall x, y | x in AllAux(windows[..n]) && y in windows[n].aux ensures x.id != y.id {
        AllAuxMember(windows[..n], x);
      }
      assert windows[n] in windows;
      UniqueIdsConcat(AllAux(windows[..n]), windows[n].aux);
    }
  }

  /**
   * After assignAuxRows every fetched aux row is counted, in exactly one window: the counted ids
   * are the fetched ids, and no id occurs twice in the whole report.
   */
  lemma AuxCountedOnce(windows: seq<WindowRows>, out: seq<WindowRows>)
    requires |out| == |windows| && forall i :: 0 <= i < |out| ==> Assigned(windows, out[i], i)
    requires forall r :: r in AllAux(windows) ==> Owned(windows, r.id)
    ensures UniqueIds(AllAux(out)) && forall r :: r in AllAux(out) ==> r in AllAux(windows)
    ensures forall id :: HasId(AllAux(windows), id) <==> HasId(AllAux(out), id)
    ensures SameDocuments(windows) ==> forall r :: r in AllAux(windows) <==> r in AllAux(out)
  {
    forall i, j, a, b | 0 <= i < j < |out| && a in out[i].aux && b in out[j].aux ensures a.id != b.id {
      ApartIfAssigned(windows, out, i, j, a, b);
    }
    AuxApartUnique(out);
    forall r | r in AllAux(out) ensures r in AllAux(windows) {
      AllAuxMember(out, r);
      AllAuxMember(windows, r);
    }
    forall id ensures HasId(AllAux(windows), id) ==> HasId(AllAux(out), id) {
      if HasId(AllAux(windows), id) {
        CountedIfFetched(windows, out, id);
      }
    }
    if SameDocuments(windows) {
      SameRowsCounted(windows, out);
    }
  }

  lemma SameRowsCounted(windows: seq<WindowRows>, out: seq<WindowRows>)
    requires SameDocuments(windows) && forall r :: r in AllAux(out) ==> r in AllAux(windows)
    requires forall id :: HasId(AllAux(windows), id) ==> HasId(AllAux(out), id)
    ensures forall r :: r in AllAux(windows) <==> r in AllAux(out)
  {
    forall r | r in AllAux(windows) ensures r in AllAux(out) {
      assert HasId(AllAux(windows), r.id);
      var s :| s in AllAux(out) && s.id == r.id;
    }
  }

  lemma ApartIfAssigned(windows: seq<WindowRows>, out: seq<WindowRows>, i: nat, j: nat, a: Row, b: Row)
    requires |out| == |windows| && i < j < |out|
    requires Assigned(windows, out[i], i) && Assigned(windows, out[j], j)
    requires a in out[i].aux && b in out[j].aux
    ensures a.id != b.id
  {
    if a.id == b.id {
      OneOwner(windows, a.id, i, j);
    }
  }

  lemma CountedIfFetched(windows: seq<WindowRows>, out: seq<WindowRows>, id: string)
    requires |out| == |windows| && forall i :: 0 <= i < |out| ==> Assigned(windows, out[i], i)
    requires Owned(windows, id)
    ensures HasId(AllAux(out), id)
  {
    var i: nat :| OwnsId(windows, id, i);
    assert Fetched(windows, id, i);
    var s :| s in windows[i].aux && s.id == id;
    assert Assigned(windows, out[i], i);
    AllAuxMember(out, s);
  }

  // ----- overlapping windows -------------------------------------------------------------------------

  /** The test of overlappingWindows; `end` is exclusive. */
  predicate Overlap(a: Window, b: Window) {
    a.start < b.end && b.start < a.end
  }

  predicate Covers(w: Window, t: int) {
    w.start <= t < w.end
  }

  method OverlappingWindows(windows: seq<Window>) returns (out: seq<(nat, nat)>)
    ensures forall p :: p in out <==> p.0 < p.1 < |windows| && Overlap(windows[p.0], windows[p.1])
  {
    out := [];
    for i := 0 to |windows|
      invariant forall p :: p in out <==> p.0 < i && p.0 < p.1 < |windows| && Overlap(windows[p.0], windows[p.1])
    {
      for j := i + 1 to |windows|
        invariant forall p :: p in out <==>
          && (p.0 < i || (p.0 == i && p.1 < j)) && p.0 < p.1 < |windows|
          && Overlap(windows[p.0], windows[p.1])
      {
        if Overlap(windows[i], windows[j]) {
          out := out + [(i, j)];
        }
      }
    }
  }

  /** For windows that are not empty the test is exact: it fires when some instant lies in both. */
  lemma OverlapMeansSharedInstant(a: Window, b: Window)
    requires a.start < a.end && b.start < b.end
    ensures Overlap(a, b) <==> exists t :: Covers(a, t) && Covers(b, t)
  {
    if Overlap(a, b) {
      var t := if a.start < b.start then b.start else a.start;
      assert Covers(a, t) && Covers(b, t);
    }
  }

  /** A Generation row is in a window because its time is, and has one time. */
  ghost predicate FetchedByTime(windows: seq<WindowRows>) {
    && (forall i, g :: 0 <= i < |windows| && g in windows[i].generations ==>
          g.createdAt.Some? && Covers(windows[i].window, g.createdAt.value))
    && (forall i, j, a, b ::
          0 <= i < j < |windows| && a in windows[i].generations && b in windows[j].generations && a.id == b.id ==>
          a.createdAt == b.createdAt)
  }

  /** When no two windows overlap, no Generation row is counted twice. */
  lemma {:induction false} GenerationsCountedOnce(windows: seq<WindowRows>)
    requires FetchedByTime(windows) && forall w :: w in windows ==> UniqueIds(w.generations)
    requires forall i, j :: 0 <= i < j < |windows| ==> !Overlap(windows[i].window, windows[j].window)
    ensures UniqueIds(AllGenerations(windows))
  {
    if windows != [] {
      var n := |windows| - 1;
      GenerationsCountedOnce(windows[..n]);
      forall x, y | x in AllGenerations(windows[..n]) && y in windows[n].generations ensures x.id != y.id {
        AllGenerationsMember(windows[..n], x);
      }
      assert windows[n] in windows;
      UniqueIdsConcat(AllGenerations(windows[..n]), windows[n].generations);
    }
  }

  // ----- the report --------------------------------------------------------------------------------------

  datatype Report = Report(
    windows: seq<WindowReport>, body: Stage, intake: Stage, preflight: Stage, totalUsd: real, totalInr: real,
    overlaps: seq<(nat, nat)>, shared: seq<Shared>)

  lemma {:induction false} AuxOfLast(rows: seq<Row>, r: Row, preflight: bool)
    requires (forall x :: x in rows ==> x.Aux?) && r.Aux?
    ensures forall x :: x in rows + [r] ==> x.Aux?
    ensures AuxOf(rows + [r], preflight) == AuxOf(rows, preflight) + if IsPreflight(r) == preflight then [r] else []
  {
    assert (rows + [r])[..|rows|] == rows;
  }

  lemma {:induction false} AuxOfConcat(a: seq<Row>, b: seq<Row>, preflight: bool)
    requires (forall r :: r in a ==> r.Aux?) && forall r :: r in b ==> r.Aux?
    ensures (forall r :: r in a + b ==> r.Aux?) && AuxOf(a + b, preflight) == AuxOf(a, preflight) + AuxOf(b, preflight)
    decreases |b|
  {
    if b == [] {
      assert a + b == a;
    } else {
      var n := |b| - 1;
      AuxOfConcat(a, b[..n], preflight);
      AuxOfLast(a + b[..n], b[n], preflight);
      AuxOfLast(b[..n], b[n], preflight);
      Regroup(a, b, n);
      ConcatAssoc(AuxOf(a, preflight), AuxOf(b[..n], preflight), if IsPreflight(b[n]) == preflight then [b[n]] else []);
    }
  }

  lemma Regroup(a: seq<Row>, b: seq<Row>, n: nat)
    requires n + 1 == |b|
    ensures (a + b[..n]) + [b[n]] == a + b && b[..n] + [b[n]] == b
  {
  }

  ghost predicate AllAreAux(rows: seq<Row>) {
    forall r :: r in rows ==> r.Aux?
  }

  /** The totals of the report are the sums of all rows of each stage. */
  ghost predicate ConservesAll(
    body: Sum, intake: Sum, preflight: Sum, windows: seq<WindowRows>, rates: RateTable)
  {
    && AllAreAux(AllAux(windows))
    && body == SumOf(AllGenerations(windows), rates)
    && intake == SumOf(AuxOf(AllAux(windows), false), rates)
    && preflight == SumOf(AuxOf(AllAux(windows), true), rates)
  }

  lemma ConservesNext(
    body: Sum, intake: Sum, preflight: Sum, windows: seq<WindowRows>, w: WindowRows, r: WindowReport,
    rates: RateTable, usdInr: real)
    requires ConservesAll(body, intake, preflight, windows, rates)
    requires WellFormed(w) && Conserves(r, w.generations, w.aux, rates, usdInr)
    ensures ConservesAll(Plus(body, Content(r.body)), Plus(intake, Content(r.intake)),
                         Plus(preflight, Content(r.preflight)), windows + [w], rates)
  {
    assert (windows + [w])[..|windows|] == windows;
    SumOfConcat(AllGenerations(windows), w.generations, rates);
    AuxOfConcat(AllAux(windows), w.aux, false);
    AuxOfConcat(AllAux(windows), w.aux, true);
    SumOfConcat(AuxOf(AllAux(windows), false), AuxOf(w.aux, false), rates);
    SumOfConcat(AuxOf(AllAux(windows), true), AuxOf(w.aux, true), rates);
  }

  /** Grand totals and window totals are the sums of their rows; rupees follow dollars. */
  ghost predicate Totals(report: Report, windows: seq<WindowRows>, rates: RateTable, usdInr: real) {
    && ConservesAll(Content(report.body), Content(report.intake), Content(report.preflight), windows, rates)
    && Sound(report.body, usdInr) && Sound(report.intake, usdInr) && Sound(report.preflight, usdInr)
    && report.totalUsd == report.body.costUsd + report.intake.costUsd + report.preflight.costUsd
    && report.totalInr == Inr(report.totalUsd, usdInr)
    && WindowsConserve(report.windows, windows, rates, usdInr)
  }

  /**
   * buildReport. `counted` are the windows after their aux rows were assigned. The grand totals are
   * the sums of all Generation rows and of the aux rows, each fetched aux row counted once; each window's
   * part is that window's own report.
   */
  method BuildReport(windows: seq<WindowRows>, rates: RateTable, usdInr: real)
    returns (report: Report, ghost counted: seq<WindowRows>)
    requires forall w :: w in windows ==> WellFormed(w)
    ensures AllGenerations(counted) == AllGenerations(windows)
    ensures |counted| == |windows| && forall i :: 0 <= i < |counted| ==> Assigned(windows, counted[i], i)
    ensures UniqueIds(AllAux(counted)) && forall id :: HasId(AllAux(windows), id) <==> HasId(AllAux(counted), id)
    ensures Totals(report, counted, rates, usdInr) && WindowsGrouped(report.windows, counted, rates, usdInr)
    ensures forall p :: p in report.overlaps
                   <==> p.0 < p.1 < |windows| && Overlap(windows[p.0].window, windows[p.1].window)
    ensures SharedOnce(report.shared) && forall e :: e in report.shared ==> SharedFits(windows, e)
    ensures forall r :: r in AllAux(windows) && FetchedTwice(windows, r.id) ==> Lists(report.shared, r.id)
  {
    var out, shared := AssignAuxRows(windows);
    counted := out;
    AssignedAreCounted(windows, out);
    report := AddWindows(out, rates, usdInr);
    var overlaps := OverlappingWindows(seq(|windows|, i requires 0 <= i < |windows| => windows[i].window));
    report := report.(overlaps := overlaps, shared := shared);
  }

  lemma AssignedAreCounted(windows: seq<WindowRows>, out: seq<WindowRows>)
    requires |out| == |windows| && forall i :: 0 <= i < |out| ==> Assigned(windows, out[i], i)
    requires forall r :: r in AllAux(windows) ==> Owned(windows, r.id)
    ensures AllGenerations(out) == AllGenerations(windows)
    ensures forall i :: 0 <= i < |out| ==> WellFormed(out[i])
    ensures UniqueIds(AllAux(out)) && forall id :: HasId(AllAux(windows), id) <==> HasId(AllAux(out), id)
  {
    assert forall i :: 0 <= i < |out| ==> Assigned(windows, out[i], i);
    SameGenerations(out, windows);
    AuxCountedOnce(windows, out);
  }

  function WindowBodies(ws: seq<WindowReport>): seq<Stage> { seq(|ws|, i requires 0 <= i < |ws| => ws[i].body) }
  function WindowIntakes(ws: seq<WindowReport>): seq<Stage> { seq(|ws|, i requires 0 <= i < |ws| => ws[i].intake) }
  function WindowPreflights(ws: seq<WindowReport>): seq<Stage> {
    seq(|ws|, i requires 0 <= i < |ws| => ws[i].preflight)
  }

  ghost predicate WindowsConserve(ws: seq<WindowReport>, windows: seq<WindowRows>, rates: RateTable, usdInr: real) {
    && |ws| == |windows|
    && forall i :: 0 <= i < |windows| ==>
      WellFormed(windows[i]) && Conserves(ws[i], windows[i].generations, windows[i].aux, rates, usdInr)
  }

  ghost predicate WindowsGrouped(ws: seq<WindowReport>, windows: seq<WindowRows>, rates: RateTable, usdInr: real) {
    && |ws| == |windows|
    && forall i :: 0 <= i < |windows| ==> WellFormed(windows[i]) && IsReportOf(ws[i], windows[i], rates, usdInr)
  }

  lemma StagesPrefix(ws: seq<WindowReport>, n: nat)
    requires n <= |ws|
    ensures WindowBodies(ws)[..n] == WindowBodies(ws[..n])
    ensures WindowIntakes(ws)[..n] == WindowIntakes(ws[..n])
    ensures WindowPreflights(ws)[..n] == WindowPreflights(ws[..n])
  {
  }

  lemma WindowsConserveAppend(
    ws: seq<WindowReport>, windows: seq<WindowRows>, r: WindowReport, w: WindowRows, rates: RateTable, usdInr: real)
    requires WindowsConserve(ws, windows, rates, usdInr)
    requires WellFormed(w) && Conserves(r, w.generations, w.aux, rates, usdInr)
    ensures WindowsConserve(ws + [r], windows + [w], rates, usdInr)
  {
  }

  lemma WindowsGroupedAppend(
    ws: seq<WindowReport>, windows: seq<WindowRows>, r: WindowReport, w: WindowRows, rates: RateTable, usdInr: real)
    requires WindowsGrouped(ws, windows, rates, usdInr) && WellFormed(w) && IsReportOf(r, w, rates, usdInr)
    ensures WindowsGrouped(ws + [r], windows + [w], rates, usdInr)
  {
    var rs, vs := ws + [r], windows + [w];
    forall i | 0 <= i < |vs| ensures WellFormed(vs[i]) && IsReportOf(rs[i], vs[i], rates, usdInr) {
      if i < |windows| {
        assert vs[i] == windows[i] && rs[i] == ws[i];
      } else {
        assert vs[i] == w && rs[i] == r;
      }
    }
  }

  ghost predicate AddUp(ws: seq<WindowReport>, windows: seq<WindowRows>, rates: RateTable) {
    ConservesAll(SumStages(WindowBodies(ws)), SumStages(WindowIntakes(ws)), SumStages(WindowPreflights(ws)),
                 windows, rates)
  }

  lemma StagesLast(ws: seq<WindowReport>, r: WindowReport)
    ensures SumStages(WindowBodies(ws + [r])) == Plus(SumStages(WindowBodies(ws)), Content(r.body))
    ensures SumStages(WindowIntakes(ws + [r])) == Plus(SumStages(WindowIntakes(ws)), Content(r.intake))
    ensures SumStages(WindowPreflights(ws + [r])) == Plus(SumStages(WindowPreflights(ws)), Content(r.preflight))
  {
    StagesPrefix(ws + [r], |ws|);
    assert (ws + [r])[..|ws|] == ws;
  }

  lemma AddUpNext(ws: seq<WindowReport>, windows: seq<WindowRows>, r: WindowReport, w: WindowRows, rates: RateTable,
                  usdInr: real)
    requires AddUp(ws, windows, rates) && WellFormed(w) && Conserves(r, w.generations, w.aux, rates, usdInr)
    ensures AddUp(ws + [r], windows + [w], rates)
  {
    StagesLast(ws, r);
    ConservesNext(SumStages(WindowBodies(ws)), SumStages(WindowIntakes(ws)), SumStages(WindowPreflights(ws)),
                  windows, w, r, rates, usdInr);
  }

  lemma {:induction false} WindowsAddUp(ws: seq<WindowReport>, windows: seq<WindowRows>, rates: RateTable, usdInr: real)
    requires WindowsConserve(ws, windows, rates, usdInr)
    ensures AddUp(ws, windows, rates)
    decreases |ws|
  {
    if ws != [] {
      var n := |ws| - 1;
      WindowsAddUp(ws[..n], windows[..n], rates, usdInr);
      AddUpNext(ws[..n], windows[..n], ws[n], windows[n], rates, usdInr);
      PrefixStep(ws, n);
      PrefixAll(ws);
      PrefixStep(windows, n);
      PrefixAll(windows);
    }
  }

  method BuildOneWindow(input: WindowRows, rates: RateTable, usdInr: real) returns (w: WindowReport)
    requires WellFormed(input)
    ensures Conserves(w, input.generations, input.aux, rates, usdInr) && IsReportOf(w, input, rates, usdInr)
  {
    var report, before, d, loose, root, united := BuildWindow(input, rates, usdInr);
    w := report;
    assert Groups(w, input, rates, usdInr, before, d, loose, root, united);
  }

  /** windows.map(buildWindow) */
  method BuildWindows(windows: seq<WindowRows>, rates: RateTable, usdInr: real) returns (ws: seq<WindowReport>)
    requires forall i :: 0 <= i < |windows| ==> WellFormed(windows[i])
    ensures WindowsConserve(ws, windows, rates, usdInr) && WindowsGrouped(ws, windows, rates, usdInr)
  {
    ws := [];
    for i := 0 to |windows|
      invariant WindowsConserve(ws, windows[..i], rates, usdInr) && WindowsGrouped(ws, windows[..i], rates, usdInr)
    {
      var w := BuildOneWindow(windows[i], rates, usdInr);
      WindowsConserveAppend(ws, windows[..i], w, windows[i], rates, usdInr);
      WindowsGroupedAppend(ws, windows[..i], w, windows[i], rates, usdInr);
      PrefixStep(windows, i);
      ws := ws + [w];
    }
    PrefixAll(windows);
  }

  /** The part of buildReport after the rows are assigned. */
  method AddWindows(windows: seq<WindowRows>, rates: RateTable, usdInr: real) returns (report: Report)
    requires forall i :: 0 <= i < |windows| ==> WellFormed(windows[i])
    ensures Totals(report, windows, rates, usdInr) && WindowsGrouped(report.windows, windows, rates, usdInr)
  {
    var ws := BuildWindows(windows, rates, usdInr);
    WindowsAddUp(ws, windows, rates, usdInr);
    var body := MergeAll(WindowBodies(ws), usdInr);
    var intake := MergeAll(WindowIntakes(ws), usdInr);
    var preflight := MergeAll(WindowPreflights(ws), usdInr);
    var totalUsd := body.costUsd + intake.costUsd + preflight.costUsd;
    report := Report(ws, body, intake, preflight, totalUsd, Inr(totalUsd, usdInr), [], []);
  }

  lemma {:induction false} SameGenerations(a: seq<WindowRows>, b: seq<WindowRows>)
    requires |a| == |b| && forall i :: 0 <= i < |a| ==> a[i].generations == b[i].generations
    ensures AllGenerations(a) == AllGenerations(b)
  {
    if a != [] {
      SameGenerations(a[..|a| - 1], b[..|b| - 1]);
    }
  }
}
