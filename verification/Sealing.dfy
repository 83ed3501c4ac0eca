/** Sealing an instance: the registered workers are checked and become one layer topology. */
module Sealing {
  import opened Common
  import opened Seqs
  import opened Layout
  import opened PageLayouts
  import opened Topology

  /** One registered GPU. A layer missing from `groups` is in storage group 0. */
  datatype Worker = Worker(
    device: nat, tpRank: nat, ppRank: nat, caches: map<string, KVCacheLayout>, groups: map<string, nat>)

  datatype Geometry = Geometry(segmentBytes: nat, split: bool, padded: nat)

  datatype SealError =
    MixedGeometry | MixedGroups | SparseGroups | PageFirstGroups | MixedStages | MissingOwner | BadPages(e: PageError)

  function GroupOf(w: Worker, name: string): nat { if name in w.groups then w.groups[name] else 0 }

  function PaddedBlock(l: KVCacheLayout): nat { l.padded * l.segments }

  function GeometryOf(l: KVCacheLayout): Geometry { Geometry(l.segmentBytes, l.seg.Split?, PaddedBlock(l)) }

  function Geometries(w: Worker): map<string, Geometry> { map n | n in w.caches :: GeometryOf(w.caches[n]) }

  function Groups(w: Worker): map<string, nat> { map n | n in w.caches :: GroupOf(w, n) }

  // ------------------------------------------------------------ one value per layer name

  /** Views that name the same layer say the same about it. */
  ghost predicate Agree<V>(views: seq<map<string, V>>) {
    forall i, j, n | 0 <= i < |views| && 0 <= j < |views| && n in views[i] && n in views[j] ::
      views[i][n] == views[j][n]
  }

  ghost predicate Named<V>(views: seq<map<string, V>>, n: string) { exists i | 0 <= i < |views| :: n in views[i] }

  ghost predicate Collects<V>(all: map<string, V>, views: seq<map<string, V>>) {
    && (forall n :: n in all <==> Named(views, n))
    && (forall i, n | 0 <= i < |views| && n in views[i] :: all[n] == views[i][n])
  }

  method Collect<V(==)>(views: seq<map<string, V>>) returns (r: Option<map<string, V>>)
    ensures r.Some? <==> Agree(views)
    ensures r.Some? ==> Collects(r.value, views)
  {
    var all: map<string, V> := map[];
    for i := 0 to |views|
      invariant Collects(all, views[..i])
    {
      var left := views[i].Keys;
      ghost var done: map<string, V> := map[];
      CollectNone(all, views[..i]);
      while left != {}
        invariant left <= views[i].Keys && done.Keys == views[i].Keys - left
        invariant forall n | n in done :: done[n] == views[i][n]
        invariant Collects(all, views[..i] + [done])
        decreases left
      {
        var n :| n in left;
        if n in all && all[n] != views[i][n] {
          NotAgreed(all, views, i, done, n);
          return None;
        }
        CollectOne(all, views[..i], done, n, views[i][n]);
        all, left, done := all[n := views[i][n]], left - {n}, done[n := views[i][n]];
      }
      assert done == views[i];
      assert views[..i+1] == views[..i] + [views[i]];
    }
    assert views[..|views|] == views;
    CollectedAgree(all, views);
    r := Some(all);
  }

  lemma NotAgreed<V>(all: map<string, V>, views: seq<map<string, V>>, i: nat, done: map<string, V>, n: string)
    requires i < |views| && Collects(all, views[..i] + [done]) && n !in done && n in views[i]
    requires n in all && all[n] != views[i][n]
    ensures !Agree(views)
  {
    var seen := views[..i] + [done];
    assert Named(seen, n);
    var j :| 0 <= j < |seen| && n in seen[j];
    assert views[j] == seen[j];
  }

  lemma CollectNone<V>(all: map<string, V>, front: seq<map<string, V>>)
    requires Collects(all, front)
    ensures Collects(all, front + [map[]])
  {
    var after := front + [map[]];
    forall n ensures Named(front, n) <==> Named(after, n) {
      if Named(front, n) {
        var j :| 0 <= j < |front| && n in front[j];
        assert n in after[j];
      }
    }
  }

  lemma CollectedAgree<V>(all: map<string, V>, views: seq<map<string, V>>)
    requires Collects(all, views)
    ensures Agree(views)
  {
    forall i, j, n | 0 <= i < |views| && 0 <= j < |views| && n in views[i] && n in views[j]
      ensures views[i][n] == views[j][n]
    {
      assert Named(views, n);
    }
  }

  lemma CollectOne<V>(all: map<string, V>, front: seq<map<string, V>>, done: map<string, V>, n: string, v: V)
    requires Collects(all, front + [done]) && n !in done && (n in all ==> all[n] == v)
    ensures Collects(all[n := v], front + [done[n := v]])
  {
    var before, after := front + [done], front + [done[n := v]];
    forall m ensures m in all[n := v] <==> Named(after, m) {
      if Named(before, m) {
        var j :| 0 <= j < |before| && m in before[j];
        assert m in after[j];
      }
      if Named(after, m) {
        var j :| 0 <= j < |after| && m in after[j];
        assert m == n || m in before[j];
      }
      assert n in after[|front|];
    }
    forall j, m | 0 <= j < |after| && m in after[j]
      ensures m in all[n := v] && all[n := v][m] == after[j][m]
    {
      assert Named(after, m);
      assert m == n || m in before[j];
      if m == n && j < |front| { assert n in before[j]; }
    }
  }

  // ------------------------------------------------------------ layer ids

  function NameOrder(): (string, string) -> bool { (a: string, b: string) => NameLess(a, b) }

  lemma NameOrderWeak()
    ensures WeakOrder(NameOrder())
  {
    var before := NameOrder();
    forall a, b | before(a, b) ensures !before(b, a) { NameAsymmetric(a, b); }
    forall a, b, c | before(a, c) ensures before(a, b) || before(b, c) {
      NameTotal(a, b);
      NameTotal(b, c);
      if before(b, a) { NameTransitive(b, a, c); }
    }
  }

  ghost predicate Numbered(names: seq<string>, ids: map<string, nat>) {
    && (forall n :: n in ids <==> n in names)
    && (forall x | 0 <= x < |names| :: ids[names[x]] == x)
  }

  lemma IdOf(names: seq<string>, ids: map<string, nat>, n: string)
    requires Numbered(names, ids) && n in ids
    ensures ids[n] < |names| && names[ids[n]] == n
  {
    var x :| 0 <= x < |names| && names[x] == n;
  }

  method NumberLayers(all: set<string>) returns (names: seq<string>, ids: map<string, nat>)
    ensures forall n :: n in names <==> n in all
    ensures Ascending(names, NameOrder()) && Numbered(names, ids)
  {
    var list: seq<string> := [];
    var left := all;
    while left != {}
      invariant left <= all && NoRepeats(list)
      invariant forall n :: n in list <==> n in all && n !in left
      decreases left
    {
      var n :| n in left;
      list, left := list + [n], left - {n};
    }
    names := SortBy(list, NameOrder());
    SortedNames(list);
    ids := map[];
    for x := 0 to |names|
      invariant forall n :: n in ids <==> n in names[..x]
      invariant forall y | 0 <= y < x :: ids[names[y]] == y
    {
      AscendingApart(names, x);
      assert names[..x+1] == names[..x] + [names[x]];
      ids := ids[names[x] := x];
    }
    assert names[..|names|] == names;
  }

  lemma AscendingApart(names: seq<string>, x: nat)
    requires Ascending(names, NameOrder()) && x < |names|
    ensures forall y | 0 <= y < x :: names[y] != names[x]
  {
    forall y | 0 <= y < x ensures names[y] != names[x] {
      assert NameOrder()(names[y], names[x]);
      NameAsymmetric(names[y], names[x]);
    }
  }

  lemma SortedNames(list: seq<string>)
    requires NoRepeats(list)
    ensures Ascending(SortBy(list, NameOrder()), NameOrder())
    ensures forall n :: n in SortBy(list, NameOrder()) <==> n in list
  {
    var names := SortBy(list, NameOrder());
    NameOrderWeak();
    SortSorted(list, NameOrder());
    SortNoRepeats(list, NameOrder());
    forall n ensures n in names <==> n in list { InSorted(list, NameOrder(), n); }
    forall i, j | 0 <= i < j < |names| ensures NameOrder()(names[i], names[j]) {
      assert !NameOrder()(names[j], names[i]) && names[i] != names[j];
      NameTotal(names[i], names[j]);
    }
  }

  // ------------------------------------------------------------ storage groups

  /** Groups are numbered without a gap from 0. */
  ghost predicate Dense(used: set<nat>) { used != {} && forall g, h | g in used && 0 <= h <= g :: h in used }

  ghost function UpTo(n: nat): (s: set<nat>)
    ensures |s| == n && forall g: nat :: g in s <==> g < n
  {
    if n == 0 then {} else UpTo(n - 1) + {n - 1}
  }

  /** Counting the groups in use decides whether they are dense. */
  lemma DenseByCount(used: set<nat>, top: nat)
    requires forall g | g in used :: g <= top
    requires used != {} ==> top in used
    ensures |used| == top + 1 <==> Dense(used)
  {
    var range := UpTo(top + 1);
    assert used <= range;
    if |used| == top + 1 {
      SameSizeSame(used, range);
      assert top in range;
    }
    if Dense(used) { assert used == range; }
  }

  lemma SameSizeSame(a: set<nat>, b: set<nat>)
    requires a <= b && |a| == |b|
    ensures a == b
  {
    assert b == a + (b - a);
    assert |b| == |a| + |b - a|;
  }

  /** The number of groups, and whether every one of them is in use. */
  method CountGroups(used: set<nat>) returns (numGroups: nat, dense: bool)
    ensures dense <==> Dense(used)
    ensures forall g | g in used :: g < numGroups
    ensures dense ==> forall g: nat :: g in used <==> g < numGroups
    ensures numGroups == 1 <==> forall g | g in used :: g == 0
  {
    var top: nat := 0;
    var left := used;
    while left != {}
      invariant left <= used
      invariant forall g | g in used && g !in left :: g <= top
      invariant if left == used then top == 0 else top in used - left || top == 0
      invariant left != used && top == 0 ==> 0 in used
      decreases left
    {
      var g :| g in left;
      if g > top { top := g; }
      left := left - {g};
    }
    DenseByCount(used, top);
    numGroups := 1 + top;
    dense := |used| == numGroups;
  }

  lemma CountNext(groups: seq<nat>, x: nat, g: nat)
    requires x < |groups|
    ensures CountIf(groups[..x+1], Is(g)) == CountIf(groups[..x], Is(g)) + if g == groups[x] then 1 else 0
  {
    assert groups[..x+1] == groups[..x] + [groups[x]];
    CountAppend(groups[..x], [groups[x]], Is(g));
    CountOne(groups[x], Is(g));
  }

  method RankLayers(layerGroup: seq<nat>, numGroups: nat) returns (groupCount: seq<nat>, groupRank: seq<nat>)
    requires forall x | 0 <= x < |layerGroup| :: layerGroup[x] < numGroups
    ensures |groupCount| == numGroups && |groupRank| == |layerGroup|
    ensures forall x | 0 <= x < |layerGroup| :: groupRank[x] == CountIf(layerGroup[..x], Is(layerGroup[x]))
    ensures forall g | 0 <= g < numGroups :: groupCount[g] == CountIf(layerGroup, Is(g))
  {
    groupCount := seq(numGroups, _ => 0);
    groupRank := [];
    for x := 0 to |layerGroup|
      invariant |groupCount| == numGroups && |groupRank| == x
      invariant forall y | 0 <= y < x :: groupRank[y] == CountIf(layerGroup[..y], Is(layerGroup[y]))
      invariant forall g | 0 <= g < numGroups :: groupCount[g] == CountIf(layerGroup[..x], Is(g))
    {
      var group := layerGroup[x];
      forall g | 0 <= g < numGroups
        ensures CountIf(layerGroup[..x+1], Is(g)) == CountIf(layerGroup[..x], Is(g)) + if g == group then 1 else 0
      {
        CountNext(layerGroup, x, g);
      }
      groupRank := groupRank + [groupCount[group]];
      groupCount := groupCount[group := groupCount[group] + 1];
    }
    assert layerGroup[..|layerGroup|] == layerGroup;
  }

  // ------------------------------------------------------------ every layer and rank has an owner

  ghost predicate HasLayer(workers: seq<Worker>, n: string) { exists w | w in workers :: n in w.caches }

  predicate Owns(w: Worker, name: string, rank: nat) { name in w.caches && w.tpRank == rank }

  /** Owners of the same layer and rank are in the same pipeline stage. */
  ghost predicate SameStages(workers: seq<Worker>) {
    forall v, w, n | v in workers && w in workers && Owns(v, n, v.tpRank) && Owns(w, n, v.tpRank) ::
      v.ppRank == w.ppRank
  }

  ghost predicate Owned(workers: seq<Worker>, n: string, rank: nat) { exists w | w in workers :: Owns(w, n, rank) }

  ghost predicate FullGrid(workers: seq<Worker>, tpSize: nat) {
    forall w, n, rank: nat | w in workers && n in w.caches && rank < tpSize :: Owned(workers, n, rank)
  }

  function Cell(x: nat, tpSize: nat, rank: nat): nat { x * tpSize + rank }

  ghost predicate InStage(done: seq<Worker>, n: string, rank: nat, stage: nat) {
    forall w | w in done && Owns(w, n, rank) :: w.ppRank == stage
  }

  ghost predicate CellOk(cell: Option<nat>, done: seq<Worker>, n: string, rank: nat) {
    match cell
    case None => !Owned(done, n, rank)
    case Some(stage) => Owned(done, n, rank) && InStage(done, n, rank, stage)
  }

  ghost predicate GridOk(owners: seq<Option<nat>>, names: seq<string>, tpSize: nat, done: seq<Worker>) {
    && |owners| == |names| * tpSize
    && forall x, rank | 0 <= x < |names| && 0 <= rank < tpSize ::
         Cell(x, tpSize, rank) < |owners| && CellOk(owners[Cell(x, tpSize, rank)], done, names[x], rank)
  }

  ghost predicate Known(workers: seq<Worker>, names: seq<string>, tpSize: nat) {
    forall w | w in workers :: w.tpRank < tpSize && forall n | n in w.caches :: n in names
  }

  /** Enters the layers of worker `i`; `None` when an owner entered earlier is in another stage. */
  method EnterWorker(start: seq<Option<nat>>, workers: seq<Worker>, i: nat, names: seq<string>, ids: map<string, nat>,
                     tpSize: nat)
    returns (r: Option<seq<Option<nat>>>)
    requires Numbered(names, ids) && Known(workers, names, tpSize)
    requires i < |workers| && GridOk(start, names, tpSize, workers[..i])
    ensures r.Some? ==> GridOk(r.value, names, tpSize, workers[..i+1])
    ensures r.None? ==> !SameStages(workers)
  {
    var owners := start;
    var w := workers[i];
    var left := w.caches.Keys;
    ghost var done: map<string, KVCacheLayout> := map[];
    SameOwners(owners, names, tpSize, workers[..i], workers[..i] + [w.(caches := done)]);
    while left != {}
      invariant left <= w.caches.Keys && done.Keys == w.caches.Keys - left
      invariant forall n | n in done :: done[n] == w.caches[n]
      invariant GridOk(owners, names, tpSize, workers[..i] + [w.(caches := done)])
      decreases left
    {
      var n :| n in left;
      var x := ids[n];
      var cell := Cell(x, tpSize, w.tpRank);
      if owners[cell].Some? && owners[cell].value != w.ppRank {
        StagesClash(owners, names, tpSize, workers, i, done, x);
        return None;
      }
      MarkOne(owners, names, tpSize, workers[..i], w, done, x, w.caches[n]);
      if owners[cell].None? {
        owners := owners[cell := Some(w.ppRank)];
      } else {
        assert owners == owners[cell := Some(w.ppRank)];
      }
      left, done := left - {n}, done[n := w.caches[n]];
    }
    assert done == w.caches && w.(caches := done) == w;
    assert workers[..i+1] == workers[..i] + [w];
    r := Some(owners);
  }

  /** The stage of each (layer, rank) owner; `None` when two owners disagree on it. */
  method FillGrid(workers: seq<Worker>, names: seq<string>, ids: map<string, nat>, tpSize: nat)
    returns (r: Option<seq<Option<nat>>>)
    requires Numbered(names, ids) && Known(workers, names, tpSize)
    ensures r.Some? <==> SameStages(workers)
    ensures r.Some? ==> GridOk(r.value, names, tpSize, workers)
  {
    var owners: seq<Option<nat>> := seq(|names| * tpSize, _ => None);
    EmptyGrid(owners, names, tpSize);
    for i := 0 to |workers|
      invariant GridOk(owners, names, tpSize, workers[..i])
    {
      var entered := EnterWorker(owners, workers, i, names, ids, tpSize);
      if entered.None? { return None; }
      owners := entered.value;
    }
    assert workers[..|workers|] == workers;
    GridStages(owners, names, tpSize, workers);
    r := Some(owners);
  }

  lemma EmptyGrid(owners: seq<Option<nat>>, names: seq<string>, tpSize: nat)
    requires |owners| == |names| * tpSize && forall c | 0 <= c < |owners| :: owners[c].None?
    ensures GridOk(owners, names, tpSize, [])
  {
    forall x, rank | 0 <= x < |names| && 0 <= rank < tpSize
      ensures Cell(x, tpSize, rank) < |owners| && CellOk(owners[Cell(x, tpSize, rank)], [], names[x], rank)
    {
      CellInGrid(tpSize, |names|, x, rank);
    }
  }

  /** A worker that owns nothing leaves the grid as it is. */
  lemma SameOwners(owners: seq<Option<nat>>, names: seq<string>, tpSize: nat, a: seq<Worker>, b: seq<Worker>)
    requires GridOk(owners, names, tpSize, a)
    requires |b| == |a| + 1 && b[..|a|] == a && b[|a|].caches == map[]
    ensures GridOk(owners, names, tpSize, b)
  {
    assert b == a + [b[|a|]];
    assert forall n, rank :: Owned(a, n, rank) <==> Owned(b, n, rank);
  }

  lemma MarkOne(owners: seq<Option<nat>>, names: seq<string>, tpSize: nat, front: seq<Worker>,
                w: Worker, done: map<string, KVCacheLayout>, x: nat, layout: KVCacheLayout)
    requires forall y, z | 0 <= y < z < |names| :: names[y] != names[z]
    requires GridOk(owners, names, tpSize, front + [w.(caches := done)])
    requires x < |names| && w.tpRank < tpSize && Cell(x, tpSize, w.tpRank) < |owners|
    requires owners[Cell(x, tpSize, w.tpRank)] in {None, Some(w.ppRank)}
    ensures GridOk(owners[Cell(x, tpSize, w.tpRank) := Some(w.ppRank)], names, tpSize,
                   front + [w.(caches := done[names[x] := layout])])
  {
    var a, b := front + [w.(caches := done)], front + [w.(caches := done[names[x] := layout])];
    var cell := Cell(x, tpSize, w.tpRank);
    forall y, rank | 0 <= y < |names| && 0 <= rank < tpSize
      ensures CellOk(owners[cell := Some(w.ppRank)][Cell(y, tpSize, rank)], b, names[y], rank)
    {
      OwnersAfter(front, w, done, names[x], layout, names[y], rank);
      if Cell(y, tpSize, rank) == cell { CellUnique(tpSize, y, rank, x, w.tpRank); }
      assert CellOk(owners[Cell(y, tpSize, rank)], a, names[y], rank);
    }
  }

  lemma OwnersAfter(front: seq<Worker>, w: Worker, done: map<string, KVCacheLayout>, n: string, layout: KVCacheLayout,
                    m: string, rank: nat)
    ensures var a, b := front + [w.(caches := done)], front + [w.(caches := done[n := layout])];
            && (Owned(b, m, rank) <==> Owned(a, m, rank) || (m == n && rank == w.tpRank))
            && forall stage ::
                 InStage(b, m, rank, stage) <==>
                 InStage(a, m, rank, stage) && (m == n && rank == w.tpRank ==> w.ppRank == stage)
  {
    var p, q := w.(caches := done), w.(caches := done[n := layout]);
    var a, b := front + [p], front + [q];
    assert forall v :: v in a <==> v in front || v == p;
    assert forall v :: v in b <==> v in front || v == q;
    assert Owns(q, m, rank) <==> Owns(p, m, rank) || (m == n && rank == w.tpRank);
    assert p in a && q in b && p.ppRank == q.ppRank == w.ppRank;
  }

  lemma StagesClash(owners: seq<Option<nat>>, names: seq<string>, tpSize: nat, workers: seq<Worker>, i: nat,
                    done: map<string, KVCacheLayout>, x: nat)
    requires i < |workers| && x < |names| && workers[i].tpRank < tpSize
    requires GridOk(owners, names, tpSize, workers[..i] + [workers[i].(caches := done)])
    requires names[x] in workers[i].caches && names[x] !in done
    requires var cell := Cell(x, tpSize, workers[i].tpRank);
             cell < |owners| && owners[cell].Some? && owners[cell].value != workers[i].ppRank
    ensures !SameStages(workers)
  {
    var w := workers[i];
    var seen := workers[..i] + [w.(caches := done)];
    assert CellOk(owners[Cell(x, tpSize, w.tpRank)], seen, names[x], w.tpRank);
    var v :| v in seen && Owns(v, names[x], w.tpRank);
    assert v in workers[..i];
    assert v in workers && w in workers;
    assert Owns(v, names[x], v.tpRank) && Owns(w, names[x], v.tpRank);
  }

  lemma GridStages(owners: seq<Option<nat>>, names: seq<string>, tpSize: nat, workers: seq<Worker>)
    requires GridOk(owners, names, tpSize, workers)
    requires Known(workers, names, tpSize)
    ensures SameStages(workers)
  {
    forall v, w, n | v in workers && w in workers && Owns(v, n, v.tpRank) && Owns(w, n, v.tpRank)
      ensures v.ppRank == w.ppRank
    {
      var x :| 0 <= x < |names| && names[x] == n;
      assert CellOk(owners[Cell(x, tpSize, v.tpRank)], workers, n, v.tpRank);
    }
  }

  /** The grid has a hole exactly when some layer lacks an owner for some rank. */
  lemma GridFull(owners: seq<Option<nat>>, names: seq<string>, tpSize: nat, workers: seq<Worker>)
    requires GridOk(owners, names, tpSize, workers)
    requires forall n :: n in names <==> HasLayer(workers, n)
    ensures (exists c | 0 <= c < |owners| :: owners[c].None?) <==> !FullGrid(workers, tpSize)
  {
    if c :| 0 <= c < |owners| && owners[c].None? {
      CellOfNumber(tpSize, |names|, c);
      var x, rank := c / tpSize, c % tpSize;
      assert Cell(x, tpSize, rank) == c && CellOk(owners[c], workers, names[x], rank);
      assert names[x] in names;
    } else {
      forall w, n, rank: nat | w in workers && n in w.caches && rank < tpSize ensures Owned(workers, n, rank) {
        assert n in names;
        var x :| 0 <= x < |names| && names[x] == n;
        assert CellOk(owners[Cell(x, tpSize, rank)], workers, n, rank);
      }
    }
  }

  // ------------------------------------------------------------ sealing

  ghost predicate UsedGroup(workers: seq<Worker>, g: nat) {
    exists w, n | w in workers && n in w.caches :: GroupOf(w, n) == g
  }

  ghost predicate DenseGroups(workers: seq<Worker>) {
    && (exists g: nat :: UsedGroup(workers, g))
    && forall g: nat, h: nat | UsedGroup(workers, g) && h <= g :: UsedGroup(workers, h)
  }

  /** Workers registered the same layers (replicas) or have no layer in common (a split). */
  ghost predicate ReplicasOrSplit(workers: seq<Worker>) {
    forall v, w | v in workers && w in workers :: v.caches.Keys == w.caches.Keys || v.caches.Keys !! w.caches.Keys
  }

  function GeometryViews(workers: seq<Worker>): seq<map<string, Geometry>> {
    seq(|workers|, i requires 0 <= i < |workers| => Geometries(workers[i]))
  }

  function GroupViews(workers: seq<Worker>): seq<map<string, nat>> {
    seq(|workers|, i requires 0 <= i < |workers| => Groups(workers[i]))
  }

  /** Why these workers cannot be sealed, the first reason in the order they are checked. */
  ghost function Verdict(workers: seq<Worker>, tpSize: nat, pageFirst: bool): Option<SealError> {
    if !Agree(GeometryViews(workers)) then Some(MixedGeometry)
    else if !Agree(GroupViews(workers)) then Some(MixedGroups)
    else if !DenseGroups(workers) then Some(SparseGroups)
    else PlacementVerdict(workers, tpSize, pageFirst)
  }

  /** The checks that follow once layers and groups are known. */
  ghost function PlacementVerdict(workers: seq<Worker>, tpSize: nat, pageFirst: bool): Option<SealError> {
    if pageFirst && (exists g: nat | g > 0 :: UsedGroup(workers, g)) then Some(PageFirstGroups)
    else if !SameStages(workers) then Some(MixedStages)
    else if !FullGrid(workers, tpSize) then Some(MissingOwner)
    else PagesVerdict(workers, pageFirst)
  }

  ghost function PagesVerdict(workers: seq<Worker>, pageFirst: bool): Option<SealError> {
    if pageFirst && !ReplicasOrSplit(workers) then Some(BadPages(ClaimedTwice)) else None
  }

  function LayerSetOf(w: Worker, ids: map<string, nat>): LayerSet
    requires w.caches.Keys <= ids.Keys
  {
    set n | n in w.caches :: ids[n]
  }

  function LayerSets(workers: seq<Worker>, ids: map<string, nat>): seq<LayerSet>
    requires forall w | w in workers :: w.caches.Keys <= ids.Keys
  {
    seq(|workers|, i requires 0 <= i < |workers| => assert workers[i] in workers; LayerSetOf(workers[i], ids))
  }

  ghost predicate KnowsLayers(t: LayerTopology, workers: seq<Worker>) {
    && Ascending(t.names, NameOrder()) && Numbered(t.names, t.ids)
    && (forall n :: n in t.names <==> HasLayer(workers, n))
  }

  ghost predicate PlacesGroups(t: LayerTopology, workers: seq<Worker>)
    requires KnowsLayers(t, workers)
  {
    && Ranked(t)
    && (forall w, n | w in workers && n in w.caches :: GroupPlaced(t, w, n))
    && CountsGroups(t, workers)
  }

  /** The groups in use are those below the group count. */
  ghost predicate CountsGroups(t: LayerTopology, workers: seq<Worker>) {
    forall g: nat :: g < |t.groupCount| <==> UsedGroup(workers, g)
  }

  ghost predicate GroupPlaced(t: LayerTopology, w: Worker, n: string) {
    n in t.ids && t.ids[n] < |t.layerGroup| && t.layerGroup[t.ids[n]] == GroupOf(w, n)
  }

  ghost predicate PlacesPages(t: LayerTopology, workers: seq<Worker>)
    requires KnowsLayers(t, workers) && Shaped(t) && t.page.Some?
  {
    && (forall w | w in workers :: w.caches.Keys <= t.ids.Keys)
    && (forall w, n | w in workers && n in w.caches ::
          t.ids[n] < |t.names| && t.page.value.bytes[t.ids[n]] == PaddedBlock(w.caches[n]))
    && Describes(t.page.value, Shards(LayerSets(workers, t.ids)), t.page.value.bytes)
  }

  /** `t` is the topology these workers seal to. */
  ghost predicate Seals(t: LayerTopology, workers: seq<Worker>, tpSize: nat, pageFirst: bool) {
    && t.tpSize == tpSize
    && KnowsLayers(t, workers)
    && PlacesGroups(t, workers)
    && (t.page.Some? <==> pageFirst)
    && (pageFirst ==> PlacesPages(t, workers))
  }

  lemma CollectedLayers(all: map<string, Geometry>, workers: seq<Worker>)
    requires Collects(all, GeometryViews(workers))
    ensures forall n :: n in all <==> HasLayer(workers, n)
    ensures forall w, n | w in workers && n in w.caches :: n in all && all[n] == GeometryOf(w.caches[n])
  {
    var views := GeometryViews(workers);
    forall n ensures n in all <==> HasLayer(workers, n) {
      if HasLayer(workers, n) {
        var i :| 0 <= i < |workers| && n in workers[i].caches;
        assert n in views[i];
      }
    }
    forall w, n | w in workers && n in w.caches ensures n in all && all[n] == GeometryOf(w.caches[n]) {
      var i :| 0 <= i < |workers| && workers[i] == w;
      assert n in views[i];
    }
  }

  lemma CollectedGroups(all: map<string, nat>, workers: seq<Worker>)
    requires Collects(all, GroupViews(workers))
    ensures forall w, n | w in workers && n in w.caches :: n in all && all[n] == GroupOf(w, n)
    ensures forall g :: g in all.Values <==> UsedGroup(workers, g)
    ensures Dense(all.Values) <==> DenseGroups(workers)
  {
    var views := GroupViews(workers);
    forall w, n | w in workers && n in w.caches ensures n in all && all[n] == GroupOf(w, n) {
      var i :| 0 <= i < |workers| && workers[i] == w;
      assert n in views[i];
    }
    forall g ensures g in all.Values <==> UsedGroup(workers, g) {
      if g in all.Values {
        var n :| n in all && all[n] == g;
        assert Named(views, n);
        var i :| 0 <= i < |views| && n in views[i];
        assert workers[i] in workers && GroupOf(workers[i], n) == g;
      }
      if UsedGroup(workers, g) {
        var w, n :| w in workers && n in w.caches && GroupOf(w, n) == g;
        assert all[n] == g;
      }
    }
  }

  /** With every layer owned by someone, only overlapping layer sets can spoil the pages. */
  lemma SetsCover(workers: seq<Worker>, names: seq<string>, ids: map<string, nat>)
    requires Numbered(names, ids) && forall n :: n in names <==> HasLayer(workers, n)
    ensures forall w | w in workers :: w.caches.Keys <= ids.Keys
    ensures forall s | s in LayerSets(workers, ids) :: forall x | x in s :: x < |names|
    ensures Covering(LayerSets(workers, ids), |names|)
  {
    forall w, n | w in workers && n in w.caches ensures n in ids && ids[n] < |names| && names[ids[n]] == n {
      assert HasLayer(workers, n);
    }
    var sets := LayerSets(workers, ids);
    forall x: nat | x < |names| ensures Held(sets, x) {
      assert HasLayer(workers, names[x]);
      var i :| 0 <= i < |workers| && names[x] in workers[i].caches;
      assert x in sets[i];
    }
  }

  lemma SetsPartition(workers: seq<Worker>, names: seq<string>, ids: map<string, nat>)
    requires Numbered(names, ids) && forall n :: n in names <==> HasLayer(workers, n)
    ensures forall w | w in workers :: w.caches.Keys <= ids.Keys
    ensures forall s | s in LayerSets(workers, ids) :: forall x | x in s :: x < |names|
    ensures Covering(LayerSets(workers, ids), |names|)
    ensures Partition(LayerSets(workers, ids), |names|) <==> ReplicasOrSplit(workers)
  {
    SetsCover(workers, names, ids);
    var sets := LayerSets(workers, ids);
    if ReplicasOrSplit(workers) {
      forall a, b | a in sets && b in sets ensures a == b || a !! b {
        var i :| 0 <= i < |sets| && sets[i] == a;
        var j :| 0 <= j < |sets| && sets[j] == b;
        SetsCompare(workers[i], workers[j], names, ids);
      }
    }
    if Partition(sets, |names|) {
      forall v, w | v in workers && w in workers
        ensures v.caches.Keys == w.caches.Keys || v.caches.Keys !! w.caches.Keys
      {
        var i :| 0 <= i < |workers| && workers[i] == v;
        var j :| 0 <= j < |workers| && workers[j] == w;
        assert sets[i] in sets && sets[j] in sets;
        SetsCompare(v, w, names, ids);
      }
    }
  }

  lemma SetsCompare(v: Worker, w: Worker, names: seq<string>, ids: map<string, nat>)
    requires v.caches.Keys <= ids.Keys && w.caches.Keys <= ids.Keys
    requires forall n | n in ids :: ids[n] < |names| && names[ids[n]] == n
    ensures LayerSetOf(v, ids) == LayerSetOf(w, ids) <==> v.caches.Keys == w.caches.Keys
    ensures LayerSetOf(v, ids) !! LayerSetOf(w, ids) <==> v.caches.Keys !! w.caches.Keys
  {
    var a, b := LayerSetOf(v, ids), LayerSetOf(w, ids);
    forall n | n in ids ensures (n in v.caches <==> ids[n] in a) && (n in w.caches <==> ids[n] in b) {
      if ids[n] in a { var m :| m in v.caches && ids[m] == ids[n]; assert m == names[ids[n]]; }
      if ids[n] in b { var m :| m in w.caches && ids[m] == ids[n]; assert m == names[ids[n]]; }
    }
    if a == b {
      forall n ensures n in v.caches <==> n in w.caches {}
    }
  }

  lemma NamesCollected(geometry: map<string, Geometry>, groups: map<string, nat>, workers: seq<Worker>,
                       names: seq<string>)
    requires Collects(geometry, GeometryViews(workers)) && Collects(groups, GroupViews(workers))
    requires forall n :: n in names <==> n in geometry
    ensures forall x | 0 <= x < |names| ::
              names[x] in geometry && names[x] in groups && groups[names[x]] in groups.Values
  {
    CollectedLayers(geometry, workers);
    CollectedGroups(groups, workers);
    forall x | 0 <= x < |names|
      ensures names[x] in geometry && names[x] in groups
    {
      assert HasLayer(workers, names[x]);
    }
  }

  ghost predicate GroupsTabled(names: seq<string>, table: seq<nat>, groups: map<string, nat>) {
    |table| == |names| && forall x | 0 <= x < |names| :: names[x] in groups && table[x] == groups[names[x]]
  }

  ghost predicate SizesTabled(names: seq<string>, table: seq<nat>, geometry: map<string, Geometry>) {
    |table| == |names| && forall x | 0 <= x < |names| :: names[x] in geometry && table[x] == geometry[names[x]].padded
  }

  /** The groups in use are 0 up to `n`. */
  ghost predicate Counted(groups: map<string, nat>, n: nat) { forall g: nat :: g in groups.Values <==> g < n }

  lemma GroupsPlaced(t: LayerTopology, workers: seq<Worker>, groups: map<string, nat>)
    requires KnowsLayers(t, workers) && Collects(groups, GroupViews(workers)) && Ranked(t)
    requires GroupsTabled(t.names, t.layerGroup, groups) && Counted(groups, |t.groupCount|)
    ensures PlacesGroups(t, workers)
  {
    CollectedGroups(groups, workers);
    forall w, n | w in workers && n in w.caches ensures GroupPlaced(t, w, n) {
      assert HasLayer(workers, n);
      IdOf(t.names, t.ids, n);
      assert groups[n] == GroupOf(w, n);
    }
  }

  ghost predicate SizesOf(t: LayerTopology, workers: seq<Worker>, padded: seq<nat>) {
    && |padded| == |t.names|
    && forall w, n | w in workers && n in w.caches ::
         n in t.ids && t.ids[n] < |padded| && padded[t.ids[n]] == PaddedBlock(w.caches[n])
  }

  lemma SizesPlaced(t: LayerTopology, workers: seq<Worker>, geometry: map<string, Geometry>, padded: seq<nat>)
    requires KnowsLayers(t, workers) && Collects(geometry, GeometryViews(workers))
    requires SizesTabled(t.names, padded, geometry)
    ensures SizesOf(t, workers, padded)
  {
    CollectedLayers(geometry, workers);
    forall w, n | w in workers && n in w.caches
      ensures n in t.ids && t.ids[n] < |padded| && padded[t.ids[n]] == PaddedBlock(w.caches[n])
    {
      assert HasLayer(workers, n);
      IdOf(t.names, t.ids, n);
    }
  }

  function GroupTable(names: seq<string>, groups: map<string, nat>): (table: seq<nat>)
    requires forall x | 0 <= x < |names| :: names[x] in groups
    ensures GroupsTabled(names, table, groups)
  {
    seq(|names|, x requires 0 <= x < |names| => groups[names[x]])
  }

  function SizeTable(names: seq<string>, geometry: map<string, Geometry>): (table: seq<nat>)
    requires forall x | 0 <= x < |names| :: names[x] in geometry
    ensures SizesTabled(names, table, geometry)
  {
    seq(|names|, x requires 0 <= x < |names| => geometry[names[x]].padded)
  }

  lemma GroupsBelow(names: seq<string>, table: seq<nat>, groups: map<string, nat>, n: nat)
    requires GroupsTabled(names, table, groups) && Counted(groups, n)
    ensures forall x | 0 <= x < |table| :: table[x] < n
  {
    forall x | 0 <= x < |table| ensures table[x] < n { assert groups[names[x]] in groups.Values; }
  }

  /** The layer, group and rank tables. */
  method Tabulate(workers: seq<Worker>, tpSize: nat, names: seq<string>, ids: map<string, nat>,
                  geometry: map<string, Geometry>, groups: map<string, nat>, numGroups: nat)
    returns (t: LayerTopology, padded: seq<nat>)
    requires Collects(geometry, GeometryViews(workers)) && Collects(groups, GroupViews(workers))
    requires (forall n :: n in names <==> n in geometry) && Ascending(names, NameOrder()) && Numbered(names, ids)
    requires Counted(groups, numGroups)
    ensures KnowsLayers(t, workers) && PlacesGroups(t, workers) && SizesOf(t, workers, padded)
    ensures t.page.None? && t.tpSize == tpSize && |t.groupCount| == numGroups
  {
    NamesCollected(geometry, groups, workers, names);
    var layerGroup := GroupTable(names, groups);
    padded := SizeTable(names, geometry);
    GroupsBelow(names, layerGroup, groups, numGroups);
    var groupCount, groupRank := RankLayers(layerGroup, numGroups);
    t := LayerTopology(names, ids, tpSize, layerGroup, groupCount, groupRank, None);
    TablesRight(t, workers, geometry, groups, padded);
  }

  lemma TablesRight(t: LayerTopology, workers: seq<Worker>, geometry: map<string, Geometry>, groups: map<string, nat>,
                    padded: seq<nat>)
    requires Collects(geometry, GeometryViews(workers)) && Collects(groups, GroupViews(workers))
    requires (forall n :: n in t.names <==> n in geometry) && Ascending(t.names, NameOrder())
             && Numbered(t.names, t.ids)
    requires Ranked(t)
    requires GroupsTabled(t.names, t.layerGroup, groups) && SizesTabled(t.names, padded, geometry)
    requires Counted(groups, |t.groupCount|)
    ensures KnowsLayers(t, workers) && PlacesGroups(t, workers) && SizesOf(t, workers, padded)
  {
    NamesKnown(t, workers, geometry);
    GroupsPlaced(t, workers, groups);
    SizesPlaced(t, workers, geometry, padded);
  }

  lemma NamesKnown(t: LayerTopology, workers: seq<Worker>, geometry: map<string, Geometry>)
    requires Collects(geometry, GeometryViews(workers)) && forall n :: n in t.names <==> n in geometry
    requires Ascending(t.names, NameOrder()) && Numbered(t.names, t.ids)
    ensures KnowsLayers(t, workers)
  {
    CollectedLayers(geometry, workers);
  }

  /** Whether the workers agree on each layer, and if so the tables. */
  method PlaceLayers(workers: seq<Worker>, tpSize: nat) returns (r: Result<(LayerTopology, seq<nat>), SealError>)
    ensures r.Err? ==> forall pageFirst :: Verdict(workers, tpSize, pageFirst) == Some(r.error)
    ensures r.Ok? ==> Agree(GeometryViews(workers)) && Agree(GroupViews(workers)) && DenseGroups(workers)
    ensures r.Ok? ==> KnowsLayers(r.value.0, workers) && PlacesGroups(r.value.0, workers)
    ensures r.Ok? ==> SizesOf(r.value.0, workers, r.value.1) && r.value.0.page.None? && r.value.0.tpSize == tpSize
  {
    var geometry := Collect(GeometryViews(workers));
    if geometry.None? { return Err(MixedGeometry); }
    var names, ids := NumberLayers(geometry.value.Keys);
    var groups := Collect(GroupViews(workers));
    if groups.None? { return Err(MixedGroups); }
    CollectedGroups(groups.value, workers);
    var numGroups, dense := CountGroups(groups.value.Values);
    if !dense { return Err(SparseGroups); }
    var t, padded := Tabulate(workers, tpSize, names, ids, geometry.value, groups.value, numGroups);
    r := Ok((t, padded));
  }

  /** Whether every layer and rank has an owner, all of one stage. */
  method CheckOwners(t: LayerTopology, workers: seq<Worker>) returns (r: Option<SealError>)
    requires KnowsLayers(t, workers) && forall w | w in workers :: w.tpRank < t.tpSize
    ensures r == if !SameStages(workers) then Some(MixedStages)
                 else if !FullGrid(workers, t.tpSize) then Some(MissingOwner) else None
  {
    LayersKnown(t, workers);
    var owners := FillGrid(workers, t.names, t.ids, t.tpSize);
    if owners.None? { return Some(MixedStages); }
    GridFull(owners.value, t.names, t.tpSize, workers);
    if exists c | 0 <= c < |owners.value| :: owners.value[c].None? { return Some(MissingOwner); }
    r := None;
  }

  method PlacePages(t: LayerTopology, workers: seq<Worker>, padded: seq<nat>) returns (r: Result<PageLayout, SealError>)
    requires KnowsLayers(t, workers) && |padded| == |t.names|
    ensures forall w | w in workers :: w.caches.Keys <= t.ids.Keys
    ensures r.Ok? <==> ReplicasOrSplit(workers)
    ensures r.Ok? ==> Describes(r.value, Shards(LayerSets(workers, t.ids)), padded)
    ensures r.Err? ==> r.error == BadPages(ClaimedTwice)
  {
    SetsPartition(workers, t.names, t.ids);
    var sets := LayerSets(workers, t.ids);
    var page := BuildPageLayout(sets, padded);
    if page.Err? { return Err(BadPages(page.error)); }
    r := Ok(page.value);
  }

  method CheckPlacement(t: LayerTopology, workers: seq<Worker>, pageFirst: bool) returns (r: Option<SealError>)
    requires KnowsLayers(t, workers) && CountsGroups(t, workers) && DenseGroups(workers)
    requires forall w | w in workers :: w.tpRank < t.tpSize
    ensures r.Some? ==> PlacementVerdict(workers, t.tpSize, pageFirst) == r
    ensures r.None? ==> PlacementVerdict(workers, t.tpSize, pageFirst) == PagesVerdict(workers, pageFirst)
  {
    GroupsBeyondZero(t, workers);
    if pageFirst && |t.groupCount| > 1 { return Some(PageFirstGroups); }
    r := CheckOwners(t, workers);
  }

  method SealPages(t: LayerTopology, workers: seq<Worker>, padded: seq<nat>)
    returns (r: Result<LayerTopology, SealError>)
    requires KnowsLayers(t, workers) && PlacesGroups(t, workers) && SizesOf(t, workers, padded)
    ensures r.Err? ==> PagesVerdict(workers, true) == Some(r.error)
    ensures r.Ok? ==> PagesVerdict(workers, true).None? && Seals(r.value, workers, t.tpSize, true)
  {
    var pages := PlacePages(t, workers, padded);
    if pages.Err? { return Err(pages.error); }
    AddPages(t, workers, padded, pages.value);
    r := Ok(t.(page := Some(pages.value)));
  }

  /** The checks and pages that follow once layers and groups are known. */
  method FinishSeal(t: LayerTopology, workers: seq<Worker>, padded: seq<nat>, pageFirst: bool)
    returns (r: Result<LayerTopology, SealError>)
    requires KnowsLayers(t, workers) && PlacesGroups(t, workers) && SizesOf(t, workers, padded) && DenseGroups(workers)
    requires t.page.None? && forall w | w in workers :: w.tpRank < t.tpSize
    ensures r.Err? ==> PlacementVerdict(workers, t.tpSize, pageFirst) == Some(r.error)
    ensures r.Ok? ==>
              PlacementVerdict(workers, t.tpSize, pageFirst).None? && Seals(r.value, workers, t.tpSize, pageFirst)
  {
    var refused := CheckPlacement(t, workers, pageFirst);
    if refused.Some? { return Err(refused.value); }
    if !pageFirst { return Ok(t); }
    r := SealPages(t, workers, padded);
  }

  /** Seals exactly the worker sets without a reason against it, and reports the first reason otherwise. */
  method SealTopology(workers: seq<Worker>, tpSize: nat, pageFirst: bool) returns (r: Result<LayerTopology, SealError>)
    requires forall w | w in workers :: w.tpRank < tpSize
    ensures r.Ok? ==> Verdict(workers, tpSize, pageFirst).None? && Seals(r.value, workers, tpSize, pageFirst)
    ensures r.Err? ==> Verdict(workers, tpSize, pageFirst) == Some(r.error)
  {
    var placed := PlaceLayers(workers, tpSize);
    if placed.Err? { return Err(placed.error); }
    r := FinishSeal(placed.value.0, workers, placed.value.1, pageFirst);
  }

  lemma LayersKnown(t: LayerTopology, workers: seq<Worker>)
    requires KnowsLayers(t, workers) && forall w | w in workers :: w.tpRank < t.tpSize
    ensures Known(workers, t.names, t.tpSize)
  {
    forall w, n | w in workers && n in w.caches ensures n in t.names { assert HasLayer(workers, n); }
  }

  lemma GroupsBeyondZero(t: LayerTopology, workers: seq<Worker>)
    requires CountsGroups(t, workers) && DenseGroups(workers)
    ensures |t.groupCount| > 1 <==> exists g: nat | g > 0 :: UsedGroup(workers, g)
  {
    if |t.groupCount| > 1 { assert UsedGroup(workers, 1); }
  }

  lemma AddPages(t: LayerTopology, workers: seq<Worker>, padded: seq<nat>, page: PageLayout)
    requires KnowsLayers(t, workers) && PlacesGroups(t, workers) && SizesOf(t, workers, padded)
    requires forall w | w in workers :: w.caches.Keys <= t.ids.Keys
    requires Describes(page, Shards(LayerSets(workers, t.ids)), padded)
    ensures Seals(t.(page := Some(page)), workers, t.tpSize, true)
  {
    var u := t.(page := Some(page));
    PagesRanked(t, page, Shards(LayerSets(workers, t.ids)), padded);
    SameGroupsPlaced(t, u, workers);
    PagesPlaced(t, workers, padded, page);
  }

  lemma PagesRanked(t: LayerTopology, page: PageLayout, shards: seq<LayerSet>, padded: seq<nat>)
    requires Ranked(t) && |padded| == |t.names| && Describes(page, shards, padded)
    ensures Ranked(t.(page := Some(page)))
  {
  }

  lemma SameGroupsPlaced(t: LayerTopology, u: LayerTopology, workers: seq<Worker>)
    requires KnowsLayers(t, workers) && PlacesGroups(t, workers) && Ranked(u) && u == t.(page := u.page)
    ensures KnowsLayers(u, workers) && PlacesGroups(u, workers)
  {
    forall w, n | w in workers && n in w.caches ensures GroupPlaced(u, w, n) { assert GroupPlaced(t, w, n); }
  }

  lemma PagesPlaced(t: LayerTopology, workers: seq<Worker>, padded: seq<nat>, page: PageLayout)
    requires KnowsLayers(t, workers) && SizesOf(t, workers, padded) && Shaped(t)
    requires forall w | w in workers :: w.caches.Keys <= t.ids.Keys
    requires Describes(page, Shards(LayerSets(workers, t.ids)), padded)
    ensures var u := t.(page := Some(page)); KnowsLayers(u, workers) && PlacesPages(u, workers)
  {
  }

  // ------------------------------------------------------------ the order of workers does not matter

  ghost predicate SameWorkers(a: seq<Worker>, b: seq<Worker>) { forall w :: w in a <==> w in b }

  lemma SameLayers(t: LayerTopology, u: LayerTopology, a: seq<Worker>, b: seq<Worker>)
    requires SameWorkers(a, b) && KnowsLayers(t, a) && KnowsLayers(u, b)
    ensures t.names == u.names && t.ids == u.ids
  {
    forall n ensures HasLayer(a, n) <==> HasLayer(b, n) {}
    NameOrderWeak();
    AscendingUnique(t.names, u.names, NameOrder());
    forall n | n in t.ids ensures n in u.ids && t.ids[n] == u.ids[n] {
      IdOf(t.names, t.ids, n);
    }
    assert t.ids.Keys == u.ids.Keys;
  }

  lemma SameGroups(t: LayerTopology, u: LayerTopology, a: seq<Worker>, b: seq<Worker>)
    requires SameWorkers(a, b) && KnowsLayers(t, a) && KnowsLayers(u, b)
    requires PlacesGroups(t, a) && PlacesGroups(u, b)
    ensures t.layerGroup == u.layerGroup && t.groupCount == u.groupCount && t.groupRank == u.groupRank
  {
    SameLayers(t, u, a, b);
    forall x | 0 <= x < |t.names| ensures t.layerGroup[x] == u.layerGroup[x] {
      assert HasLayer(a, t.names[x]);
    }
    assert t.layerGroup == u.layerGroup;
    assert forall g: nat :: UsedGroup(a, g) <==> UsedGroup(b, g);
    assert !UsedGroup(a, |t.groupCount|) && !UsedGroup(b, |u.groupCount|);
    assert t.groupCount == u.groupCount;
    assert t.groupRank == u.groupRank;
  }

  lemma SamePages(t: LayerTopology, u: LayerTopology, a: seq<Worker>, b: seq<Worker>)
    requires SameWorkers(a, b) && KnowsLayers(t, a) && KnowsLayers(u, b) && Shaped(t) && Shaped(u)
    requires t.page.Some? && u.page.Some? && PlacesPages(t, a) && PlacesPages(u, b) && ReplicasOrSplit(a)
    ensures t.page == u.page
  {
    SameLayers(t, u, a, b);
    var p, q := t.page.value, u.page.value;
    forall x | 0 <= x < |t.names| ensures p.bytes[x] == q.bytes[x] {
      assert HasLayer(a, t.names[x]);
    }
    assert p.bytes == q.bytes;
    SetsPartition(a, t.names, t.ids);
    SameSets(a, b, t.ids);
    LayoutIgnoresWorkerOrder(LayerSets(a, t.ids), LayerSets(b, t.ids), p.bytes, p, q);
  }

  lemma SameSets(a: seq<Worker>, b: seq<Worker>, ids: map<string, nat>)
    requires SameWorkers(a, b) && forall w | w in a :: w.caches.Keys <= ids.Keys
    ensures forall w | w in b :: w.caches.Keys <= ids.Keys
    ensures forall s :: s in LayerSets(a, ids) <==> s in LayerSets(b, ids)
  {
    forall s ensures s in LayerSets(a, ids) <==> s in LayerSets(b, ids) {
      SetsOf(a, ids, s);
      SetsOf(b, ids, s);
    }
  }

  lemma SetsOf(a: seq<Worker>, ids: map<string, nat>, s: LayerSet)
    requires forall w | w in a :: w.caches.Keys <= ids.Keys
    ensures s in LayerSets(a, ids) <==> exists w | w in a :: LayerSetOf(w, ids) == s
  {
    var sets := LayerSets(a, ids);
    if s in sets {
      var i :| 0 <= i < |sets| && sets[i] == s;
      assert a[i] in a;
    }
    if w :| w in a && LayerSetOf(w, ids) == s {
      var i :| 0 <= i < |a| && a[i] == w;
      assert sets[i] == s;
    }
  }

  /** Workers registered in any order seal to the same topology. */
  lemma SealedUnique(t: LayerTopology, u: LayerTopology, a: seq<Worker>, b: seq<Worker>, tpSize: nat, pageFirst: bool)
    requires SameWorkers(a, b) && (pageFirst ==> ReplicasOrSplit(a))
    requires Seals(t, a, tpSize, pageFirst) && Seals(u, b, tpSize, pageFirst)
    ensures t == u
  {
    SameLayers(t, u, a, b);
    SameGroups(t, u, a, b);
    if pageFirst { SamePages(t, u, a, b); }
  }
}
