/** Page-first storage: which shard page, and where in it, each layer's block lives. */
module PageLayouts {
  import opened Common
  import opened Seqs

  /** The layers one worker registered. */
  type LayerSet = set<nat>

  /** Per layer: its shard, its offset in the shard's page, its size. Per shard: the page size. */
  datatype PageLayout = PageLayout(shard: seq<nat>, offset: seq<nat>, bytes: seq<nat>, pageSizes: seq<nat>)

  datatype PageError = ClaimedTwice | Unclaimed

  ghost predicate IsLeast(s: LayerSet, m: nat) { m in s && forall x | x in s :: m <= x }

  lemma {:induction false} LeastExists(s: LayerSet)
    requires s != {}
    ensures exists m :: IsLeast(s, m)
  {
    var x :| x in s;
    if s - {x} == {} {
      assert s == {x};
      assert IsLeast(s, x);
    } else {
      LeastExists(s - {x});
      var m :| IsLeast(s - {x}, m);
      assert forall y | y in s :: y == x || y in s - {x};
      assert IsLeast(s, if m < x then m else x);
    }
  }

  function Least(s: LayerSet): (m: nat)
    requires s != {}
    ensures m in s && forall x | x in s :: m <= x
  {
    LeastExists(s);
    var m :| m in s && forall x | x in s :: m <= x;
    m
  }

  /** Shards are ordered by their least layer; a shard without layers comes last. */
  function ByLeast(): (LayerSet, LayerSet) -> bool {
    (a: LayerSet, b: LayerSet) => a != {} && (b == {} || Least(a) < Least(b))
  }

  /** Replicas registered the same set: one shard. */
  function Dedup(sets: seq<LayerSet>): seq<LayerSet> {
    if sets == [] then []
    else
      var front := Dedup(sets[..|sets|-1]);
      if sets[|sets|-1] in front then front else front + [sets[|sets|-1]]
  }

  function Shards(sets: seq<LayerSet>): seq<LayerSet> { SortBy(Dedup(sets), ByLeast()) }

  /** Bytes the layers below `layer` take in the page of shard `s`. */
  function BytesBefore(shard: seq<nat>, padded: seq<nat>, s: nat, layer: nat): nat
    requires layer <= |shard| && layer <= |padded|
  {
    if layer == 0 then 0
    else BytesBefore(shard, padded, s, layer - 1) + if shard[layer-1] == s then padded[layer-1] else 0
  }

  function Offset(shard: seq<nat>, padded: seq<nat>, layer: nat): nat
    requires layer < |shard| == |padded|
  {
    BytesBefore(shard, padded, shard[layer], layer)
  }

  /** Layers of a shard lie one after the other, in layer order. */
  ghost predicate Describes(pl: PageLayout, shards: seq<LayerSet>, padded: seq<nat>) {
    && |pl.shard| == |pl.offset| == |pl.bytes| == |padded| && |pl.pageSizes| == |shards|
    && pl.bytes == padded
    && (forall x | 0 <= x < |padded| :: pl.shard[x] < |shards| && x in shards[pl.shard[x]])
    && (forall x | 0 <= x < |padded| :: pl.offset[x] == Offset(pl.shard, padded, x))
    && (forall s | 0 <= s < |shards| :: pl.pageSizes[s] == BytesBefore(pl.shard, padded, s, |padded|))
  }

  ghost predicate DisjointShards(shards: seq<LayerSet>) {
    forall i, j | 0 <= i < j < |shards| :: shards[i] !! shards[j]
  }

  ghost predicate Held(shards: seq<LayerSet>, x: nat) { exists s | s in shards :: x in s }

  ghost predicate Covering(shards: seq<LayerSet>, n: nat) { forall x: nat | x < n :: Held(shards, x) }

  /** Workers hold equal or disjoint layer sets, and every layer has a worker. */
  ghost predicate EqualOrDisjoint(sets: seq<LayerSet>) { forall a, b | a in sets && b in sets :: a == b || a !! b }

  ghost predicate Partition(sets: seq<LayerSet>, n: nat) { EqualOrDisjoint(sets) && Covering(sets, n) }

  lemma {:induction false} DedupKeeps(sets: seq<LayerSet>)
    ensures forall s :: s in Dedup(sets) <==> s in sets
    ensures NoRepeats(Dedup(sets))
  {
    if sets != [] {
      DedupKeeps(sets[..|sets|-1]);
      assert sets == sets[..|sets|-1] + [sets[|sets|-1]];
    }
  }

  lemma ShardsKeep(sets: seq<LayerSet>)
    ensures forall s :: s in Shards(sets) <==> s in sets
    ensures NoRepeats(Shards(sets))
  {
    DedupKeeps(sets);
    forall s ensures s in Shards(sets) <==> s in sets { InSorted(Dedup(sets), ByLeast(), s); }
    SortNoRepeats(Dedup(sets), ByLeast());
  }

  lemma SameCover(a: seq<LayerSet>, b: seq<LayerSet>, n: nat)
    requires forall s :: s in a <==> s in b
    ensures Covering(a, n) <==> Covering(b, n)
  {
    assert forall x :: Held(a, x) <==> Held(b, x);
  }

  lemma PartitionByShards(sets: seq<LayerSet>, n: nat)
    ensures EqualOrDisjoint(sets) <==> DisjointShards(Shards(sets))
    ensures Covering(sets, n) <==> Covering(Shards(sets), n)
  {
    var shards := Shards(sets);
    ShardsKeep(sets);
    if DisjointShards(shards) {
      forall a, b | a in sets && b in sets ensures a == b || a !! b {
        var i :| 0 <= i < |shards| && shards[i] == a;
        var j :| 0 <= j < |shards| && shards[j] == b;
        assert i < j ==> shards[i] !! shards[j];
        assert j < i ==> shards[j] !! shards[i];
      }
    }
    if EqualOrDisjoint(sets) {
      forall i, j | 0 <= i < j < |shards| ensures shards[i] !! shards[j] {
        assert shards[i] in shards && shards[j] in shards;
      }
    }
    SameCover(shards, sets, n);
  }

  // ------------------------------------------------------------ building it

  /** `o` is the shard that has layer `x`, if there is one. */
  ghost predicate ClaimedBy(o: Option<nat>, shards: seq<LayerSet>, x: nat) {
    match o
    case Some(s) => s < |shards| && x in shards[s]
    case None => forall s | s in shards :: x !in s
  }

  ghost predicate Claims(owner: seq<Option<nat>>, shards: seq<LayerSet>) {
    forall x | 0 <= x < |owner| :: ClaimedBy(owner[x], shards, x)
  }

  ghost predicate ApartFrom(shards: seq<LayerSet>, shard: LayerSet) { forall s | s in shards :: s !! shard }

  /** Gives the layers of one more shard to it, unless one of them has an owner. */
  method ClaimShard(owner: seq<Option<nat>>, ghost shards: seq<LayerSet>, id: nat, shard: LayerSet)
    returns (after: seq<Option<nat>>, clash: bool)
    requires Claims(owner, shards) && id == |shards| && forall x | x in shard :: x < |owner|
    ensures clash <==> !ApartFrom(shards, shard)
    ensures !clash ==> |after| == |owner| && Claims(after, shards + [shard])
  {
    after, clash := owner, false;
    var left := shard;
    while left != {}
      invariant left <= shard && |after| == |owner|
      invariant forall x | 0 <= x < |owner| :: after[x] == if x in shard - left then Some(id) else owner[x]
      invariant forall x | x in shard - left :: owner[x].None?
      decreases left
    {
      var layer :| layer in left;
      if after[layer].Some? {
        assert ClaimedBy(owner[layer], shards, layer);
        ghost var other := shards[owner[layer].value];
        assert other in shards && layer in other && layer in shard;
        return after, true;
      }
      after, left := after[layer := Some(id)], left - {layer};
    }
    ShardClaimed(owner, after, shards, shard);
  }

  lemma ShardClaimed(owner: seq<Option<nat>>, after: seq<Option<nat>>, shards: seq<LayerSet>, shard: LayerSet)
    requires Claims(owner, shards) && |after| == |owner| && forall x | x in shard :: x < |owner| && owner[x].None?
    requires forall x | 0 <= x < |owner| :: after[x] == if x in shard then Some(|shards|) else owner[x]
    ensures ApartFrom(shards, shard) && Claims(after, shards + [shard])
  {
    forall x | x in shard ensures forall s | s in shards :: x !in s { assert ClaimedBy(owner[x], shards, x); }
    forall x | 0 <= x < |after| ensures ClaimedBy(after[x], shards + [shard], x) {
      assert ClaimedBy(owner[x], shards, x);
    }
  }

  lemma OneMoreDisjoint(shards: seq<LayerSet>, shard: LayerSet)
    requires DisjointShards(shards)
    ensures DisjointShards(shards + [shard]) <==> ApartFrom(shards, shard)
  {
    var all := shards + [shard];
    if DisjointShards(all) {
      forall s | s in shards ensures s !! shard {
        var i :| 0 <= i < |shards| && shards[i] == s;
        assert all[i] !! all[|shards|];
      }
    }
    if ApartFrom(shards, shard) {
      forall i, j | 0 <= i < j < |all| ensures all[i] !! all[j] { assert i < |shards| && shards[i] in shards; }
    }
  }

  lemma FewerDisjoint(shards: seq<LayerSet>, n: nat)
    requires n <= |shards|
    ensures DisjointShards(shards) ==> DisjointShards(shards[..n])
  {
  }

  method ClaimLayers(shards: seq<LayerSet>, n: nat) returns (owner: seq<Option<nat>>, clash: bool)
    requires forall s | s in shards :: forall x | x in s :: x < n
    ensures clash <==> !DisjointShards(shards)
    ensures !clash ==> |owner| == n && Claims(owner, shards)
  {
    owner := seq(n, _ => None);
    for id := 0 to |shards|
      invariant |owner| == n && DisjointShards(shards[..id]) && Claims(owner, shards[..id])
    {
      assert shards[id] in shards && shards[..id+1] == shards[..id] + [shards[id]];
      owner, clash := ClaimShard(owner, shards[..id], id, shards[id]);
      OneMoreDisjoint(shards[..id], shards[id]);
      FewerDisjoint(shards, id + 1);
      if clash { return; }
    }
    assert shards[..|shards|] == shards;
    clash := false;
  }

  method BuildPageLayout(sets: seq<LayerSet>, padded: seq<nat>) returns (r: Result<PageLayout, PageError>)
    requires forall s | s in sets :: forall x | x in s :: x < |padded|
    ensures r.Ok? <==> Partition(sets, |padded|)
    ensures r.Ok? ==> Describes(r.value, Shards(sets), padded)
    ensures r.Err? ==> r.error == if EqualOrDisjoint(sets) then Unclaimed else ClaimedTwice
  {
    var distinct := DistinctSets(sets);
    var shards := SortBy(distinct, ByLeast());
    ShardsKeep(sets);
    PartitionByShards(sets, |padded|);
    var owner, clash := ClaimLayers(shards, |padded|);
    if clash { return Err(ClaimedTwice); }
    var shard := ShardTable(owner, shards);
    if shard.None? { return Err(Unclaimed); }
    var pl := LayOut(|shards|, shard.value, padded);
    r := Ok(pl);
  }

  method DistinctSets(sets: seq<LayerSet>) returns (distinct: seq<LayerSet>)
    ensures distinct == Dedup(sets)
  {
    distinct := [];
    for i := 0 to |sets|
      invariant distinct == Dedup(sets[..i])
    {
      assert sets[..i+1][..i] == sets[..i];
      if sets[i] !in distinct { distinct := distinct + [sets[i]]; }
    }
    assert sets[..|sets|] == sets;
  }

  /** The shard of every layer, if every layer has one. */
  method ShardTable(owner: seq<Option<nat>>, ghost shards: seq<LayerSet>) returns (r: Option<seq<nat>>)
    requires Claims(owner, shards)
    ensures r.Some? <==> Covering(shards, |owner|)
    ensures r.Some? ==> |r.value| == |owner|
    ensures r.Some? ==> forall x | 0 <= x < |owner| :: r.value[x] < |shards| && x in shards[r.value[x]]
  {
    var shard: seq<nat> := [];
    for x := 0 to |owner|
      invariant |shard| == x
      invariant forall y | 0 <= y < x :: shard[y] < |shards| && y in shards[shard[y]]
    {
      assert ClaimedBy(owner[x], shards, x);
      if owner[x].None? {
        assert !Held(shards, x);
        return None;
      }
      shard := shard + [owner[x].value];
    }
    forall x: nat | x < |owner| ensures Held(shards, x) { assert x in shards[shard[x]]; }
    r := Some(shard);
  }

  method LayOut(numShards: nat, shard: seq<nat>, padded: seq<nat>) returns (pl: PageLayout)
    requires |shard| == |padded| && forall y | 0 <= y < |padded| :: shard[y] < numShards
    ensures pl.shard == shard && pl.bytes == padded && |pl.offset| == |padded| && |pl.pageSizes| == numShards
    ensures forall x | 0 <= x < |padded| :: pl.offset[x] == Offset(shard, padded, x)
    ensures forall s | 0 <= s < numShards :: pl.pageSizes[s] == BytesBefore(shard, padded, s, |padded|)
  {
    var offset: seq<nat> := [];
    var sizes: seq<nat> := seq(numShards, _ => 0);
    for x := 0 to |padded|
      invariant |offset| == x && |sizes| == numShards
      invariant forall y | 0 <= y < x :: offset[y] == Offset(shard, padded, y)
      invariant forall s | 0 <= s < numShards :: sizes[s] == BytesBefore(shard, padded, s, x)
    {
      var s := shard[x];
      offset := offset + [sizes[s]];
      sizes := sizes[s := sizes[s] + padded[x]];
    }
    pl := PageLayout(shard, offset, padded, sizes);
  }

  // ------------------------------------------------------------ pages are tiled, and workers' order does not matter

  lemma {:induction false} BytesGrow(shard: seq<nat>, padded: seq<nat>, s: nat, x: nat, y: nat)
    requires x <= y <= |shard| && y <= |padded|
    ensures BytesBefore(shard, padded, s, x) <= BytesBefore(shard, padded, s, y)
    ensures x < y && shard[x] == s ==> BytesBefore(shard, padded, s, x) + padded[x] <= BytesBefore(shard, padded, s, y)
  {
    if x < y { BytesGrow(shard, padded, s, x, y - 1); }
  }

  /** Layers of one shard do not overlap and stay inside its page. */
  lemma LayersApart(pl: PageLayout, shards: seq<LayerSet>, padded: seq<nat>, x: nat, y: nat)
    requires Describes(pl, shards, padded) && x < y < |padded| && pl.shard[x] == pl.shard[y]
    ensures pl.offset[x] + pl.bytes[x] <= pl.offset[y]
  {
    BytesGrow(pl.shard, padded, pl.shard[x], x, y);
  }

  lemma LayerInPage(pl: PageLayout, shards: seq<LayerSet>, padded: seq<nat>, x: nat)
    requires Describes(pl, shards, padded) && x < |padded|
    ensures pl.offset[x] + pl.bytes[x] <= pl.pageSizes[pl.shard[x]]
  {
    BytesGrow(pl.shard, padded, pl.shard[x], x, |padded|);
  }

  lemma {:induction false} ByteHasLayer(shard: seq<nat>, padded: seq<nat>, s: nat, n: nat, b: nat)
    requires n <= |shard| && n <= |padded| && b < BytesBefore(shard, padded, s, n)
    ensures exists x | 0 <= x < n :: shard[x] == s
              && BytesBefore(shard, padded, s, x) <= b < BytesBefore(shard, padded, s, x) + padded[x]
  {
    if b < BytesBefore(shard, padded, s, n - 1) {
      ByteHasLayer(shard, padded, s, n - 1, b);
    } else {
      assert shard[n-1] == s;
    }
  }

  /** No byte of a page is left over. */
  lemma PageTiled(pl: PageLayout, shards: seq<LayerSet>, padded: seq<nat>, s: nat, b: nat)
    requires Describes(pl, shards, padded) && s < |shards| && b < pl.pageSizes[s]
    ensures exists x | 0 <= x < |padded| :: pl.shard[x] == s && pl.offset[x] <= b < pl.offset[x] + pl.bytes[x]
  {
    ByteHasLayer(pl.shard, padded, s, |padded|, b);
    var x :| 0 <= x < |padded| && pl.shard[x] == s
      && BytesBefore(pl.shard, padded, s, x) <= b < BytesBefore(pl.shard, padded, s, x) + padded[x];
    assert pl.offset[x] <= b < pl.offset[x] + pl.bytes[x];
  }

  lemma LeastOrder()
    ensures WeakOrder(ByLeast())
  {
  }

  lemma ShardsAscending(sets: seq<LayerSet>, n: nat)
    requires Partition(sets, n)
    ensures Ascending(Shards(sets), ByLeast())
  {
    var shards := Shards(sets);
    LeastOrder();
    SortSorted(Dedup(sets), ByLeast());
    ShardsKeep(sets);
    PartitionByShards(sets, n);
    forall i, j | 0 <= i < j < |shards| ensures ByLeast()(shards[i], shards[j]) {
      assert shards[i] !! shards[j] && shards[i] != shards[j] && !ByLeast()(shards[j], shards[i]);
    }
  }

  lemma DescribesUnique(p: PageLayout, q: PageLayout, shards: seq<LayerSet>, padded: seq<nat>)
    requires DisjointShards(shards) && Describes(p, shards, padded) && Describes(q, shards, padded)
    ensures p == q
  {
    forall x | 0 <= x < |padded| ensures p.shard[x] == q.shard[x] {
      var i, j := p.shard[x], q.shard[x];
      assert x in shards[i] && x in shards[j];
      assert DisjointShards(shards);
    }
    assert p.shard == q.shard;
    assert p.offset == q.offset && p.pageSizes == q.pageSizes;
  }

  /** Workers in any order, with any number of replicas, seal the same layout or none. */
  lemma LayoutIgnoresWorkerOrder(a: seq<LayerSet>, b: seq<LayerSet>, padded: seq<nat>, p: PageLayout, q: PageLayout)
    requires forall s :: s in a <==> s in b
    ensures Partition(a, |padded|) <==> Partition(b, |padded|)
    ensures Partition(a, |padded|) && Describes(p, Shards(a), padded) && Describes(q, Shards(b), padded) ==> p == q
  {
    SameCover(a, b, |padded|);
    if Partition(a, |padded|) && Partition(b, |padded|) {
      ShardsAscending(a, |padded|);
      ShardsAscending(b, |padded|);
      ShardsKeep(a);
      ShardsKeep(b);
      LeastOrder();
      AscendingUnique(Shards(a), Shards(b), ByLeast());
      PartitionByShards(a, |padded|);
      if Describes(p, Shards(a), padded) && Describes(q, Shards(b), padded) {
        DescribesUnique(p, q, Shards(a), padded);
      }
    }
  }

  /** Every layer offset keeps the alignment that every layer size has. */
  lemma {:induction false} OffsetsAligned(shard: seq<nat>, padded: seq<nat>, s: nat, n: nat, alignment: nat)
    requires alignment > 0 && n <= |shard| && n <= |padded|
    requires forall x | 0 <= x < n :: padded[x] % alignment == 0
    ensures BytesBefore(shard, padded, s, n) % alignment == 0
  {
    if n > 0 {
      OffsetsAligned(shard, padded, s, n - 1, alignment);
      SumAligned(BytesBefore(shard, padded, s, n - 1), padded[n-1], alignment);
    }
  }

  lemma SumAligned(a: nat, b: nat, alignment: nat)
    requires alignment > 0 && a % alignment == 0 && b % alignment == 0
    ensures (a + b) % alignment == 0
  {
    var i, j := a / alignment, b / alignment;
    assert a == alignment * i && b == alignment * j;
    assert a + b == alignment * (i + j) + 0;
    DivModUnique(alignment, i + j, 0);
  }
}
