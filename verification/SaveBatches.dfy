/** The batches of a save, and what the insert worker finds in them. */
module SaveBatches {
  import opened Common
  import opened Seqs
  import opened Blocks
  import opened WritePath
  import opened InsertEntries
  import opened SaveTargets
  import opened SavePath

  datatype Batch = Batch(total: nat, layers: seq<SaveLayer>)

  function StoredHashes(c: Context): (hs: seq<Hash>)
    requires c.group <= U32_MAX
    ensures |hs| == |c.blocks| && forall j | 0 <= j < |hs| :: hs[j] == GroupHash(c.blocks[j].1, c.group)
  {
    seq(|c.blocks|, j requires 0 <= j < |c.blocks| => GroupHash(c.blocks[j].1, c.group))
  }

  function SaveLayerOf(c: Context, raws: seq<RawBlock>): SaveLayer
    requires c.group <= U32_MAX
  {
    SaveLayer(c.slot, raws, StoredHashes(c))
  }

  /** Every slot content of the batch is one the save stored, for its own key and slot. */
  ghost predicate FromSave(e: Env, cs: seq<Context>, stored: seq<seq<RawBlock>>, t: Triple)
    requires ShapedLike(cs, stored)
  {
    exists i: nat, j: nat :: i < |cs| && j < |cs[i].blocks| && cs[i].group <= U32_MAX
      && (BlockKey(e.ns, t.0), t.1, t.2) == DeliveryOf(e, cs, stored, i, j)
  }

  ghost predicate BatchFrom(e: Env, cs: seq<Context>, stored: seq<seq<RawBlock>>, b: Batch)
    requires ShapedLike(cs, stored)
  {
    && InsertEntries.WellFormed(b.layers)
    && (forall k | 0 <= k < |b.layers| :: b.layers[k].slot < b.total)
    && forall k | 0 <= k < |b.layers| :: LayerFrom(e, cs, stored, b.layers[k])
  }

  /** A batch layer carries one layer of the save. */
  ghost predicate LayerFrom(e: Env, cs: seq<Context>, stored: seq<seq<RawBlock>>, layer: SaveLayer)
    requires ShapedLike(cs, stored)
  {
    exists i | 0 <= i < |cs| :: cs[i].group <= U32_MAX && layer == SaveLayerOf(cs[i], stored[i])
  }

  ghost predicate GroupsSmall(cs: seq<Context>) { forall i | 0 <= i < |cs| :: cs[i].group <= U32_MAX }

  /** The layers of storage group `g` among the first `n`, in the order of the request. */
  function GroupLayers(cs: seq<Context>, stored: seq<seq<RawBlock>>, g: nat, n: nat): seq<SaveLayer>
    requires |stored| == |cs| && GroupsSmall(cs) && n <= |cs|
  {
    if n == 0 then []
    else GroupLayers(cs, stored, g, n - 1) + if cs[n-1].group == g then [SaveLayerOf(cs[n-1], stored[n-1])] else []
  }

  /** The layers of every storage group. */
  function GroupParts(cs: seq<Context>, stored: seq<seq<RawBlock>>, k: nat): (parts: seq<seq<SaveLayer>>)
    requires |stored| == |cs| && GroupsSmall(cs)
    ensures |parts| == k && forall g | 0 <= g < k :: parts[g] == GroupLayers(cs, stored, g, |cs|)
  {
    seq(k, g requires 0 <= g < k && |stored| == |cs| && GroupsSmall(cs) => GroupLayers(cs, stored, g, |cs|))
  }

  /** One batch per part that is not empty, in order. */
  function BatchList(totals: seq<nat>, parts: seq<seq<SaveLayer>>, n: nat): seq<Batch>
    requires n <= |totals| == |parts|
  {
    if n == 0 then []
    else BatchList(totals, parts, n - 1) + if parts[n-1] == [] then [] else [Batch(totals[n-1], parts[n-1])]
  }

  /** One batch per storage group that has something to save, with that group's slot count, in group order. */
  function GroupBatches(cs: seq<Context>, stored: seq<seq<RawBlock>>, totals: seq<nat>): seq<Batch>
    requires |stored| == |cs| && GroupsSmall(cs)
  {
    BatchList(totals, GroupParts(cs, stored, |totals|), |totals|)
  }

  method BatchesByGroup(cs: seq<Context>, stored: seq<seq<RawBlock>>, totals: seq<nat>) returns (batches: seq<Batch>)
    requires |stored| == |cs| && GroupsSmall(cs)
    ensures batches == GroupBatches(cs, stored, totals)
  {
    batches := [];
    ghost var parts := GroupParts(cs, stored, |totals|);
    for g := 0 to |totals|
      invariant batches == BatchList(totals, parts, g)
    {
      var layers := LayersOfGroup(cs, stored, g);
      assert layers == parts[g];
      if |layers| > 0 { batches := batches + [Batch(totals[g], layers)]; }
    }
  }

  method LayersOfGroup(cs: seq<Context>, stored: seq<seq<RawBlock>>, g: nat) returns (layers: seq<SaveLayer>)
    requires |stored| == |cs| && GroupsSmall(cs)
    ensures layers == GroupLayers(cs, stored, g, |cs|)
  {
    layers := [];
    for i := 0 to |cs|
      invariant layers == GroupLayers(cs, stored, g, i)
    {
      if cs[i].group == g { layers := layers + [SaveLayerOf(cs[i], stored[i])]; }
    }
  }

  lemma {:induction false} GroupLayersExact(cs: seq<Context>, stored: seq<seq<RawBlock>>, g: nat, n: nat,
                                            layer: SaveLayer)
    requires |stored| == |cs| && GroupsSmall(cs) && n <= |cs|
    ensures layer in GroupLayers(cs, stored, g, n) <==>
              exists i | 0 <= i < n :: cs[i].group == g && layer == SaveLayerOf(cs[i], stored[i])
  {
    if n > 0 { GroupLayersExact(cs, stored, g, n - 1, layer); }
  }

  ghost predicate Batched(batches: seq<Batch>, total: nat, layer: SaveLayer) {
    exists b | b in batches :: b.total == total && layer in b.layers
  }

  /** Every layer of the save is in a batch that knows how many slots its storage group has. */
  lemma LayerBatched(cs: seq<Context>, stored: seq<seq<RawBlock>>, totals: seq<nat>, i: nat)
    requires |stored| == |cs| && GroupsSmall(cs) && i < |cs| && cs[i].group < |totals|
    ensures Batched(GroupBatches(cs, stored, totals), totals[cs[i].group], SaveLayerOf(cs[i], stored[i]))
  {
    var g, layer, parts := cs[i].group, SaveLayerOf(cs[i], stored[i]), GroupParts(cs, stored, |totals|);
    GroupLayersExact(cs, stored, g, |cs|, layer);
    InBatchList(totals, parts, |totals|, g, layer);
  }

  lemma {:induction false} InBatchList(totals: seq<nat>, parts: seq<seq<SaveLayer>>, n: nat, g: nat, layer: SaveLayer)
    requires g < n <= |totals| == |parts| && layer in parts[g]
    ensures Batched(BatchList(totals, parts, n), totals[g], layer)
  {
    if g < n - 1 {
      InBatchList(totals, parts, n - 1, g, layer);
      MoreBatches(BatchList(totals, parts, n - 1), BatchList(totals, parts, n), totals[g], layer);
    } else {
      var batches := BatchList(totals, parts, n);
      assert batches[|batches|-1] == Batch(totals[g], parts[g]);
    }
  }

  lemma {:induction false} BatchListed(totals: seq<nat>, parts: seq<seq<SaveLayer>>, n: nat, b: Batch) returns (g: nat)
    requires n <= |totals| == |parts| && b in BatchList(totals, parts, n)
    ensures g < n && b == Batch(totals[g], parts[g])
  {
    if b in BatchList(totals, parts, n - 1) { g := BatchListed(totals, parts, n - 1, b); } else { g := n - 1; }
  }

  lemma MoreBatches(batches: seq<Batch>, more: seq<Batch>, total: nat, layer: SaveLayer)
    requires Batched(batches, total, layer) && batches <= more
    ensures Batched(more, total, layer)
  {
    var b :| b in batches && b.total == total && layer in b.layers;
    assert b in more;
  }

  ghost predicate IsGroupBatch(cs: seq<Context>, stored: seq<seq<RawBlock>>, totals: seq<nat>, g: nat, b: Batch)
    requires |stored| == |cs| && GroupsSmall(cs)
  {
    g < |totals| && b == Batch(totals[g], GroupLayers(cs, stored, g, |cs|))
  }

  lemma GroupBatchFrom(e: Env, cs: seq<Context>, stored: seq<seq<RawBlock>>, totals: seq<nat>, g: nat, b: Batch)
    requires ShapedLike(cs, stored) && GroupsSmall(cs) && IsGroupBatch(cs, stored, totals, g, b)
    requires forall i | 0 <= i < |cs| :: cs[i].group < |totals| && cs[i].slot < totals[cs[i].group]
    ensures BatchFrom(e, cs, stored, b)
  {
    forall k | 0 <= k < |b.layers|
      ensures LayerFrom(e, cs, stored, b.layers[k]) && b.layers[k].slot < b.total
              && |b.layers[k].blocks| == |b.layers[k].hashes|
    {
      GroupLayersExact(cs, stored, g, |cs|, b.layers[k]);
      var i :| 0 <= i < |cs| && cs[i].group == g && b.layers[k] == SaveLayerOf(cs[i], stored[i]);
    }
  }

  /** A batch holds the layers of one storage group. */
  lemma BatchOfGroup(cs: seq<Context>, stored: seq<seq<RawBlock>>, totals: seq<nat>, b: Batch) returns (g: nat)
    requires |stored| == |cs| && GroupsSmall(cs) && b in GroupBatches(cs, stored, totals)
    ensures IsGroupBatch(cs, stored, totals, g, b)
  {
    g := BatchListed(totals, GroupParts(cs, stored, |totals|), |totals|, b);
  }

  lemma {:induction false} InLayerTriples(layer: SaveLayer, n: nat, t: Triple)
    requires n <= |layer.blocks| == |layer.hashes|
    ensures t in LayerTriples(layer, n) <==>
              exists j: nat | j < n :: t == (layer.hashes[j], layer.slot, layer.blocks[j])
  {
    if n > 0 { InLayerTriples(layer, n - 1, t); }
  }

  ghost predicate InLayer(layer: SaveLayer, t: Triple) {
    |layer.blocks| == |layer.hashes| && t in LayerTriples(layer, |layer.blocks|)
  }

  lemma {:induction false} LayerOfTriple(layers: seq<SaveLayer>, t: Triple) returns (k: nat)
    requires InsertEntries.WellFormed(layers) && t in Triples(layers)
    ensures k < |layers| && InLayer(layers[k], t)
  {
    var n := |layers| - 1;
    if t in Triples(layers[..n]) { k := LayerOfTriple(layers[..n], t); } else { k := n; }
  }

  lemma {:induction false} TripleOfLayer(layers: seq<SaveLayer>, k: nat, t: Triple)
    requires InsertEntries.WellFormed(layers) && k < |layers| && InLayer(layers[k], t)
    ensures t in Triples(layers)
  {
    if k < |layers| - 1 { TripleOfLayer(layers[..|layers|-1], k, t); }
  }

  lemma TripleFrom(e: Env, cs: seq<Context>, stored: seq<seq<RawBlock>>, b: Batch, t: Triple)
    requires ShapedLike(cs, stored) && BatchFrom(e, cs, stored, b) && t in Triples(b.layers)
    ensures FromSave(e, cs, stored, t) && t.1 < b.total
  {
    var k := LayerOfTriple(b.layers, t);
    InLayerTriples(b.layers[k], |b.layers[k].blocks|, t);
    assert LayerFrom(e, cs, stored, b.layers[k]);
    var i :| 0 <= i < |cs| && cs[i].group <= U32_MAX && b.layers[k] == SaveLayerOf(cs[i], stored[i]);
    var j: nat :| j < |b.layers[k].blocks| && t == (b.layers[k].hashes[j], b.layers[k].slot, b.layers[k].blocks[j]);
    assert (BlockKey(e.ns, t.0), t.1, t.2) == DeliveryOf(e, cs, stored, i, j);
  }

  // ------------------------------------------------------------ what the entries of a batch deliver

  lemma {:induction false} InOfWrites(h: Hash, writes: seq<SlotWrite>, i: nat)
    requires i < |writes|
    ensures (h, writes[i].0, writes[i].1) in OfWrites(h, writes)
  {
    if i < |writes| - 1 { InOfWrites(h, writes[..|writes|-1], i); }
  }

  lemma {:induction false} InOfEntries(entries: seq<Entry>, k: nat, i: nat)
    requires k < |entries| && i < |entries[k].writes|
    ensures (entries[k].key.hash, entries[k].writes[i].0, entries[k].writes[i].1) in OfEntries(entries)
  {
    if k < |entries| - 1 {
      InOfEntries(entries[..|entries|-1], k, i);
    } else {
      InOfWrites(entries[k].key.hash, entries[k].writes, i);
    }
  }

  lemma CountedIsThere(ts: seq<Triple>, t: Triple)
    ensures Count(ts, t) > 0 <==> t in ts
  {
    CountPositive(ts, Eq(t));
  }

  /** Entries that keep the batch deliver only what the batch holds. */
  lemma EntryWrite(entries: seq<Entry>, layers: seq<SaveLayer>, k: nat, i: nat)
    requires InsertEntries.WellFormed(layers) && Keeps(entries, layers) && k < |entries| && i < |entries[k].writes|
    ensures (entries[k].key.hash, entries[k].writes[i].0, entries[k].writes[i].1) in Triples(layers)
  {
    var t := (entries[k].key.hash, entries[k].writes[i].0, entries[k].writes[i].1);
    InOfEntries(entries, k, i);
    CountedIsThere(OfEntries(entries), t);
    CountedIsThere(Triples(layers), t);
  }

  /** Slots of a batch are below its slot count, and all it delivers is in `delivered`. */
  ghost predicate BatchOk(ns: string, b: Batch, delivered: set<Delivery>) {
    && InsertEntries.WellFormed(b.layers)
    && forall t | t in Triples(b.layers) :: t.1 < b.total && (BlockKey(ns, t.0), t.1, t.2) in delivered
  }

  lemma EntriesInRange(ns: string, b: Batch, delivered: set<Delivery>, entries: seq<Entry>)
    requires BatchOk(ns, b, delivered) && Keeps(entries, b.layers)
    ensures AllInRange(entries, b.total)
  {
    forall k | 0 <= k < |entries| ensures InRange(entries[k].writes, b.total) {
      forall i | 0 <= i < |entries[k].writes|
        ensures entries[k].writes[i].0 < b.total
      {
        EntryWrite(entries, b.layers, k, i);
      }
    }
  }

  lemma {:induction false} EntriesDelivered(ns: string, b: Batch, delivered: set<Delivery>, entries: seq<Entry>, n: nat)
    requires BatchOk(ns, b, delivered) && Keeps(entries, b.layers) && n <= |entries|
    requires forall k | 0 <= k < |entries| :: entries[k].key.ns == ns
    ensures Deliveries(entries[..n]) <= delivered
  {
    if n > 0 {
      EntriesDelivered(ns, b, delivered, entries, n - 1);
      assert entries[..n][..n-1] == entries[..n-1];
      var entry := entries[n-1];
      forall d | d in DeliveriesOf(entry) ensures d in delivered {
        var i :| 0 <= i < |entry.writes| && d == (entry.key, entry.writes[i].0, entry.writes[i].1);
        EntryWrite(entries, b.layers, n - 1, i);
        assert entry.key == BlockKey(ns, entry.key.hash);
      }
    }
  }
}
