/** What sealing decides and yields, told by what the workers registered. */
module SealLaws {
  import opened Common
  import opened PageLayouts
  import opened Topology
  import opened Sealing

  // ------------------------------------------------------------ what sealing decides

  /** The storage group a worker gives a layer: 0 unless it says otherwise. */
  ghost predicate GivesGroup(w: Worker, n: string, g: nat) {
    n in w.caches && g == if n in w.groups then w.groups[n] else 0
  }

  /** Workers that share a layer cut its blocks alike. */
  ghost predicate SameCut(workers: seq<Worker>) {
    forall v, w, n | v in workers && w in workers && n in v.caches && n in w.caches ::
      && v.caches[n].segmentBytes == w.caches[n].segmentBytes && v.caches[n].seg.Split? == w.caches[n].seg.Split?
      && v.caches[n].padded * v.caches[n].segments == w.caches[n].padded * w.caches[n].segments
  }

  /** Workers that share a layer put it into the same storage group. */
  ghost predicate SameGroups(workers: seq<Worker>) {
    forall v, w, n, g: nat, h: nat | v in workers && w in workers && GivesGroup(v, n, g) && GivesGroup(w, n, h) ::
      g == h
  }

  ghost predicate Used(workers: seq<Worker>, g: nat) { exists w, n | w in workers :: GivesGroup(w, n, g) }

  /** The groups in use are 0 up to some number. */
  ghost predicate NoGap(workers: seq<Worker>) {
    Used(workers, 0) && forall g: nat, h: nat | Used(workers, g) && h <= g :: Used(workers, h)
  }

  lemma CutsAgree(workers: seq<Worker>)
    ensures Agree(GeometryViews(workers)) <==> SameCut(workers)
  {
    var views := GeometryViews(workers);
    if Agree(views) {
      forall v, w, n | v in workers && w in workers && n in v.caches && n in w.caches
        ensures GeometryOf(v.caches[n]) == GeometryOf(w.caches[n])
      {
        var i :| 0 <= i < |workers| && workers[i] == v;
        var j :| 0 <= j < |workers| && workers[j] == w;
        assert n in views[i] && n in views[j];
      }
    }
    if SameCut(workers) {
      forall i, j, n | 0 <= i < |views| && 0 <= j < |views| && n in views[i] && n in views[j]
        ensures views[i][n] == views[j][n]
      {
        assert workers[i] in workers && workers[j] in workers;
      }
    }
  }

  lemma GroupsAgree(workers: seq<Worker>)
    ensures Agree(GroupViews(workers)) <==> SameGroups(workers)
  {
    var views := GroupViews(workers);
    if Agree(views) {
      forall v, w, n, g: nat, h: nat | v in workers && w in workers && GivesGroup(v, n, g) && GivesGroup(w, n, h)
        ensures g == h
      {
        var i :| 0 <= i < |workers| && workers[i] == v;
        var j :| 0 <= j < |workers| && workers[j] == w;
        assert n in views[i] && n in views[j];
      }
    }
    if SameGroups(workers) {
      forall i, j, n | 0 <= i < |views| && 0 <= j < |views| && n in views[i] && n in views[j]
        ensures views[i][n] == views[j][n]
      {
        assert workers[i] in workers && workers[j] in workers;
        assert GivesGroup(workers[i], n, views[i][n]) && GivesGroup(workers[j], n, views[j][n]);
      }
    }
  }

  lemma UsedIs(workers: seq<Worker>, g: nat)
    ensures UsedGroup(workers, g) <==> Used(workers, g)
  {
    if UsedGroup(workers, g) {
      var w, n :| w in workers && n in w.caches && GroupOf(w, n) == g;
      assert GivesGroup(w, n, g);
    }
    if Used(workers, g) {
      var w, n :| w in workers && GivesGroup(w, n, g);
      assert GroupOf(w, n) == g;
    }
  }

  lemma DenseIs(workers: seq<Worker>)
    ensures DenseGroups(workers) <==> NoGap(workers)
  {
    forall g: nat ensures UsedGroup(workers, g) <==> Used(workers, g) { UsedIs(workers, g); }
    if g: nat :| UsedGroup(workers, g) { assert NoGap(workers) ==> Used(workers, 0); }
  }

  /** Everything sealing asks for. */
  ghost predicate Sealable(workers: seq<Worker>, tpSize: nat, pageFirst: bool) {
    && SameCut(workers) && SameGroups(workers) && NoGap(workers)
    && (pageFirst ==> forall g: nat | Used(workers, g) :: g == 0)
    && (forall v, w, n | v in workers && w in workers && n in v.caches && n in w.caches && v.tpRank == w.tpRank ::
          v.ppRank == w.ppRank)
    && (forall w, n, rank: nat | w in workers && n in w.caches && rank < tpSize :: HasOwner(workers, n, rank))
    && (pageFirst ==> forall v, w | v in workers && w in workers ::
          v.caches.Keys == w.caches.Keys || v.caches.Keys !! w.caches.Keys)
  }

  /** Some worker of this rank registered the layer. */
  ghost predicate HasOwner(workers: seq<Worker>, n: string, rank: nat) {
    exists v | v in workers :: n in v.caches && v.tpRank == rank
  }

  lemma StagesAre(workers: seq<Worker>)
    ensures SameStages(workers) <==>
            forall v, w, n | v in workers && w in workers && n in v.caches && n in w.caches && v.tpRank == w.tpRank ::
              v.ppRank == w.ppRank
  {
    if SameStages(workers) {
      forall v, w, n | v in workers && w in workers && n in v.caches && n in w.caches && v.tpRank == w.tpRank
        ensures v.ppRank == w.ppRank
      {
        assert Owns(v, n, v.tpRank) && Owns(w, n, v.tpRank);
      }
    }
  }

  lemma GridIs(workers: seq<Worker>, tpSize: nat)
    ensures FullGrid(workers, tpSize) <==>
            forall w, n, rank: nat | w in workers && n in w.caches && rank < tpSize :: HasOwner(workers, n, rank)
  {
    forall n, rank: nat ensures Owned(workers, n, rank) <==> HasOwner(workers, n, rank) {
      if v :| v in workers && n in v.caches && v.tpRank == rank { assert Owns(v, n, rank); }
      if v :| v in workers && Owns(v, n, rank) { assert HasOwner(workers, n, rank); }
    }
  }

  /** Workers are sealed exactly when they register alike, without gaps, and own every layer for every rank. */
  lemma SealableExactly(workers: seq<Worker>, tpSize: nat, pageFirst: bool)
    ensures Verdict(workers, tpSize, pageFirst).None? <==> Sealable(workers, tpSize, pageFirst)
  {
    CutsAgree(workers);
    GroupsAgree(workers);
    DenseIs(workers);
    forall g: nat ensures UsedGroup(workers, g) <==> Used(workers, g) { UsedIs(workers, g); }
    StagesAre(workers);
    GridIs(workers, tpSize);
  }

  // ------------------------------------------------------------ what it yields

  /** Layers are numbered by name, and lie in the group that their workers gave them. */
  lemma SealedLayers(t: LayerTopology, workers: seq<Worker>, tpSize: nat, pageFirst: bool)
    requires Seals(t, workers, tpSize, pageFirst)
    ensures forall i, j | 0 <= i < j < |t.names| :: NameLess(t.names[i], t.names[j])
    ensures forall w, n, g: nat | w in workers && GivesGroup(w, n, g) ::
              n in t.ids && t.ids[n] < |t.names| && t.names[t.ids[n]] == n && t.layerGroup[t.ids[n]] == g
  {
    forall i, j | 0 <= i < j < |t.names| ensures NameLess(t.names[i], t.names[j]) {
      assert NameOrder()(t.names[i], t.names[j]);
    }
    forall w, n, g: nat | w in workers && GivesGroup(w, n, g)
      ensures n in t.ids && t.ids[n] < |t.names| && t.names[t.ids[n]] == n && t.layerGroup[t.ids[n]] == g
    {
      assert GroupPlaced(t, w, n);
      IdOf(t.names, t.ids, n);
    }
  }

  /** Shards are numbered in the order in which their first layers come. */
  ghost predicate FirstComeFirst(shard: seq<nat>) {
    forall y: nat, s: nat | y < |shard| && s < shard[y] :: ComesBefore(shard, y, s)
  }

  ghost predicate ComesBefore(shard: seq<nat>, y: nat, s: nat)
    requires y < |shard|
  {
    exists x | 0 <= x < y :: shard[x] == s
  }

  lemma ShardBefore(pl: PageLayout, sets: seq<LayerSet>, padded: seq<nat>, y: nat, s: nat)
    requires Partition(sets, |padded|) && Describes(pl, Shards(sets), padded) && y < |padded| && s < pl.shard[y]
    requires forall a | a in sets :: forall x | x in a :: x < |padded|
    ensures ComesBefore(pl.shard, y, s)
  {
    var shards := Shards(sets);
    ShardsAscending(sets, |padded|);
    ShardsKeep(sets);
    PartitionByShards(sets, |padded|);
    assert ByLeast()(shards[s], shards[pl.shard[y]]) && y in shards[pl.shard[y]];
    var x := Least(shards[s]);
    assert shards[s] in sets && x < y;
    SameShard(pl, shards, padded, x, s);
  }

  lemma SameShard(pl: PageLayout, shards: seq<LayerSet>, padded: seq<nat>, x: nat, s: nat)
    requires DisjointShards(shards) && Describes(pl, shards, padded) && x < |padded| && s < |shards| && x in shards[s]
    ensures pl.shard[x] == s
  {
    var r := pl.shard[x];
    assert x in shards[r];
    if r != s { ShardsDiffer(shards, r, s); }
  }

  lemma ShardsDiffer(shards: seq<LayerSet>, i: nat, j: nat)
    requires DisjointShards(shards) && i < |shards| && j < |shards| && i != j
    ensures shards[i] !! shards[j]
  {
    if j < i { assert shards[j] !! shards[i]; }
  }

  /** A page layout gives each layer set one shard, and numbers the shards as their layers come. */
  lemma PagesNumbered(pl: PageLayout, sets: seq<LayerSet>, padded: seq<nat>)
    requires Partition(sets, |padded|) && Describes(pl, Shards(sets), padded)
    requires forall a | a in sets :: forall x | x in a :: x < |padded|
    ensures |pl.shard| == |padded| && FirstComeFirst(pl.shard)
    ensures forall x, y | 0 <= x < |padded| && 0 <= y < |padded| ::
              pl.shard[x] == pl.shard[y] <==> exists a | a in sets :: x in a && y in a
  {
    forall y: nat, s: nat | y < |pl.shard| && s < pl.shard[y] ensures ComesBefore(pl.shard, y, s) {
      ShardBefore(pl, sets, padded, y, s);
    }
    ShardsKeep(sets);
    PartitionByShards(sets, |padded|);
    forall x, y | 0 <= x < |padded| && 0 <= y < |padded|
      ensures pl.shard[x] == pl.shard[y] <==> exists a | a in sets :: x in a && y in a
    {
      if pl.shard[x] == pl.shard[y] { assert Shards(sets)[pl.shard[x]] in sets; }
      if a :| a in sets && x in a && y in a {
        var s :| 0 <= s < |Shards(sets)| && Shards(sets)[s] == a;
        SameShard(pl, Shards(sets), padded, x, s);
        SameShard(pl, Shards(sets), padded, y, s);
      }
    }
  }
}
