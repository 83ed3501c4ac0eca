/** Save, insert and load on one sealed instance: what is loaded is what was saved. */
module SaveLoad {
  import opened Common
  import opened Layout
  import opened Blocks
  import opened WritePath
  import opened Transfer
  import opened CopyDescs
  import opened Topology
  import opened Sealing
  import opened SavePath
  import opened LoadPath

  // ------------------------------------------------------------ one target of a load

  ghost predicate KnownWorker(e: Env, w: Worker) { exists d | d in e.workers :: e.workers[d] == w }

  /** `r` is a save of this layer under this key, and by this rank unless ranks share their slots. */
  ghost predicate SavedAs(e: Env, r: Record, key: BlockKey, layer: nat, rank: nat) {
    r.key == key && r.layer == layer && (RankKept(e.t) ==> r.rank == rank)
  }

  /** No save of another storage group used this key. */
  ghost predicate KeyOfGroup(e: Env, log: set<Record>, key: BlockKey, g: nat) {
    forall r, h: nat | r in log && OfGroup(e, r, key, h) :: h == g
  }

  /** Every save used the key of one of these content hashes. */
  ghost predicate KeyedBy(e: Env, log: set<Record>, hashes: iset<Hash>) {
    forall r | r in log :: exists a: Hash, g: nat :: KeyedAs(e, r, hashes, a, g)
  }

  ghost predicate KeyedAs(e: Env, r: Record, hashes: iset<Hash>, a: Hash, g: nat) {
    a in hashes && g <= U32_MAX && g < |e.t.groupCount| && OfGroup(e, r, BlockKey(e.ns, GroupHash(a, g)), g)
  }

  /** Content hashes that keys tell apart make every key belong to one storage group. */
  lemma KeysOfGroups(e: Env, log: set<Record>, hashes: iset<Hash>, a: Hash, g: nat)
    requires |e.t.groupCount| <= U32_MAX + 1 && KeysApart(hashes, |e.t.groupCount|) && KeyedBy(e, log, hashes)
    requires a in hashes && g < |e.t.groupCount|
    ensures KeyOfGroup(e, log, BlockKey(e.ns, GroupHash(a, g)), g)
  {
    KeysApartExactly(hashes, |e.t.groupCount|);
    var key := BlockKey(e.ns, GroupHash(a, g));
    forall r, h: nat | r in log && OfGroup(e, r, key, h) ensures h == g {
      var b: Hash, k: nat :| KeyedAs(e, r, hashes, b, k);
      assert GroupHash(a, g) == GroupHash(b, k);
    }
  }

  ghost predicate Trusted(e: Env, host: Host, delivered: set<Delivery>, log: set<Record>) {
    && SoundEnv(e)
    && (forall d | d in delivered :: Recorded(e, log, d))
    && (forall r | r in log :: Intact(e, host, r))
  }

  lemma SameGeometrySameBytes(host: Host, l: KVCacheLayout, m: KVCacheLayout, raw: RawBlock, start: nat)
    requires l.segmentBytes == m.segmentBytes && l.segments == m.segments && l.seg.Split? == m.seg.Split?
    requires HasRoom(host, l, raw, start)
    ensures HasRoom(host, m, raw, start) && HostImage(host, m, raw, start) == HostImage(host, l, raw, start)
  {
    forall p: nat | p < NumRanges(l)
      ensures HostPart(raw, start, l.segmentBytes, p) == HostPart(raw, start, m.segmentBytes, p) {}
  }

  /** A record for what a sealed block holds in the slot of a layer. */
  lemma SlotOnRecord(e: Env, host: Host, delivered: set<Delivery>, log: set<Record>, key: BlockKey, block: SealedBlock,
                     layer: nat, rank: nat) returns (r: Record)
    requires Trusted(e, host, delivered, log) && SealedFrom(block, key, delivered)
    requires layer < |e.t.names| && SlotIndex(e.t, layer, rank).Ok? && SlotIndex(e.t, layer, rank).value < |block.slots|
    requires KeyOfGroup(e, log, key, e.t.layerGroup[layer])
    ensures r in log && SavedAs(e, r, key, layer, rank) && r.raw == block.slots[SlotIndex(e.t, layer, rank).value]
  {
    var slot := SlotIndex(e.t, layer, rank).value;
    var d: Delivery := (key, slot, block.slots[slot]);
    assert d in delivered && Recorded(e, log, d);
    DeliveryOnRecord(e, log, d, layer, rank);
    r :| r in log && r.key == d.0 && r.raw == d.2 && r.layer == layer && (RankKept(e.t) ==> r.rank == rank);
  }

  lemma DeliveryOnRecord(e: Env, log: set<Record>, d: Delivery, layer: nat, rank: nat)
    requires Shaped(e.t) && Recorded(e, log, d) && layer < |e.t.names| && SlotIndex(e.t, layer, rank) == Ok(d.1)
    requires KeyOfGroup(e, log, d.0, e.t.layerGroup[layer])
    ensures OnRecord(e, log, d, layer, rank)
  {
    var g: nat :| RecordedAs(e, log, d, g);
    var other :| other in log && OfGroup(e, other, d.0, g);
  }

  lemma LayerHasLayout(e: Env, w: Worker, name: string)
    requires SoundEnv(e) && KnownWorker(e, w) && name in w.caches
    ensures name in e.t.ids && e.t.ids[name] < |e.t.names| && LayoutOf(e, e.t.ids[name], w.caches[name])
    ensures SaveTargets.Registered(w.caches[name])
  {
    var d :| d in e.workers && e.workers[d] == w;
    assert WorkerOk(e, e.workers[d]) && LayerOk(e, name, w.caches[name]);
    IdOf(e.t.names, e.t.ids, name);
    assert RegisteredAs(e.workers[d], name, w.caches[name]);
  }

  /** What a load will read for a layer is what the save recorded that put this content into the slot. */
  lemma SlotHoldsSaved(e: Env, host: Host, delivered: set<Delivery>, log: set<Record>, w: Worker, name: string,
                       key: BlockKey, block: SealedBlock, rank: nat) returns (r: Record)
    requires Trusted(e, host, delivered, log) && SealedFrom(block, key, delivered) && KnownWorker(e, w)
    requires Loadable(e.t, w, rank, name) && SlotIndex(e.t, e.t.ids[name], rank).value < |block.slots|
    requires KeyOfGroup(e, log, key, e.t.layerGroup[e.t.ids[name]])
    ensures r in log && SavedAs(e, r, key, e.t.ids[name], rank)
    ensures r.raw == block.slots[SlotIndex(e.t, e.t.ids[name], rank).value]
    ensures var start := StartFor(e.t, e.t.ids[name]);
            HasRoom(host, w.caches[name], r.raw, start) && HostImage(host, w.caches[name], r.raw, start) == r.image
  {
    var layer := e.t.ids[name];
    r := SlotOnRecord(e, host, delivered, log, key, block, layer, rank);
    assert Intact(e, host, r);
    LayerHasLayout(e, w, name);
    SameGeometrySameBytes(host, r.layout, w.caches[name], r.raw, StartFor(e.t, layer));
  }

  // ------------------------------------------------------------ a whole load

  /** Layers of a worker do not share device memory. */
  ghost predicate LayersDisjoint(w: Worker) {
    forall m, n, b: nat, p: nat, c: nat, q: nat |
      m in w.caches && n in w.caches && m != n && ValidPart(w.caches[m], b, p) && ValidPart(w.caches[n], c, q) ::
      Disjoint(PartRange(w.caches[m], b, p), PartRange(w.caches[n], c, q))
  }

  ghost predicate DistinctDests(targets: seq<Target>) {
    forall i, j | 0 <= i < j < |targets| :: targets[i].dest != targets[j].dest
  }

  /** The targets of a load: sealed earlier, keyed for the storage group they are loaded into, one per destination. */
  ghost predicate TargetsFor(e: Env, delivered: set<Delivery>, log: set<Record>, groups: seq<seq<string>>,
                             targets: seq<seq<Target>>) {
    && |targets| == |groups|
    && (forall g | 0 <= g < |groups| :: DistinctDests(targets[g]))
    && (forall g, j | 0 <= g < |groups| && 0 <= j < |targets[g]| ::
          SealedFrom(targets[g][j].block, targets[g][j].key, delivered))
    && forall g, k, j | 0 <= g < |groups| && 0 <= k < |groups[g]| && 0 <= j < |targets[g]| ::
         TargetKeyed(e, log, groups[g][k], targets[g][j])
  }

  ghost predicate TargetKeyed(e: Env, log: set<Record>, name: string, x: Target) {
    && name in e.t.ids && e.t.ids[name] < |e.t.layerGroup|
    && KeyOfGroup(e, log, x.key, e.t.layerGroup[e.t.ids[name]])
    && GroupTotalSlots(e.t, e.t.layerGroup[e.t.ids[name]]) == Ok(|x.block.slots|)
  }

  /** What the sealed block holds in the slot of this layer and rank. */
  ghost predicate HoldsInSlot(e: Env, rank: nat, name: string, block: SealedBlock, raw: RawBlock) {
    && Shaped(e.t) && name in e.t.ids && SlotIndex(e.t, e.t.ids[name], rank).Ok?
    && SlotIndex(e.t, e.t.ids[name], rank).value < |block.slots|
    && block.slots[SlotIndex(e.t, e.t.ids[name], rank).value] == raw
  }

  /** The destination holds what the save recorded that put this content into the block's slot. */
  ghost predicate Restored(e: Env, log: set<Record>, dev: Memory, w: Worker, rank: nat, name: string, x: Target) {
    && name in w.caches && name in e.t.ids && Layout.Sound(w.caches[name]) && InsideDevice(w.caches[name], dev)
    && x.dest < w.caches[name].numBlocks
    && exists r | r in log :: RestoredFrom(e, dev, w, rank, name, x, r)
  }

  ghost predicate RestoredFrom(e: Env, dev: Memory, w: Worker, rank: nat, name: string, x: Target, r: Record)
    requires name in w.caches && name in e.t.ids && Layout.Sound(w.caches[name]) && InsideDevice(w.caches[name], dev)
    requires x.dest < w.caches[name].numBlocks
  {
    && SavedAs(e, r, x.key, e.t.ids[name], rank) && HoldsInSlot(e, rank, name, x.block, r.raw)
    && DeviceImage(dev, w.caches[name], x.dest) == r.image
  }

  /** What lies in one place is one content: records of a layer with the same slot content have the same bytes. */
  lemma SameRawSameImage(e: Env, host: Host, r: Record, s: Record)
    requires SoundEnv(e) && Intact(e, host, r) && Intact(e, host, s) && r.layer == s.layer && r.raw == s.raw
    ensures r.image == s.image
  {
    SameGeometrySameBytes(host, r.layout, s.layout, r.raw, StartFor(e.t, r.layer));
  }

  /** Everything about a load that is decided before the copies run. */
  ghost predicate Prepared(e: Env, host: Host, delivered: set<Delivery>, log: set<Record>, w: Worker, rank: nat,
                           groups: seq<seq<string>>, targets: seq<seq<Target>>,
                           layers: seq<LayerTransfer>, names: seq<string>, of: seq<nat>) {
    && Trusted(e, host, delivered, log) && KnownWorker(e, w) && LayersDisjoint(w)
    && TargetsFor(e, delivered, log, groups, targets) && Builds(e.t, w, rank, groups, targets, layers, names, of)
  }

  /** Which worker layout and which target a block of the load is. */
  lemma LayerShape(t: LayerTopology, w: Worker, rank: nat, groups: seq<seq<string>>, targets: seq<seq<Target>>,
                   layers: seq<LayerTransfer>, names: seq<string>, of: seq<nat>, i: nat, j: nat)
    requires Builds(t, w, rank, groups, targets, layers, names, of) && i < |layers| && j < |layers[i].blocks|
    ensures of[i] < |targets| && j < |targets[of[i]]| && Loadable(t, w, rank, names[i]) && names[i] in groups[of[i]]
    ensures layers[i].layout == w.caches[names[i]]
    ensures var x, layer := targets[of[i]][j], t.ids[names[i]];
            layers[i].blocks[j] ==
              TransferBlock(x.dest, Cached(x.block, SlotIndex(t, layer, rank).value, StartFor(t, layer)))
  {
    assert layers[i] == LayerFor(t, w, rank, names[i], targets[of[i]]);
  }

  lemma LayerBlock(e: Env, host: Host, delivered: set<Delivery>, log: set<Record>, w: Worker, rank: nat,
                   groups: seq<seq<string>>, targets: seq<seq<Target>>,
                   layers: seq<LayerTransfer>, names: seq<string>, of: seq<nat>, i: nat, j: nat) returns (r: Record)
    requires Prepared(e, host, delivered, log, w, rank, groups, targets, layers, names, of)
    requires i < |layers| && j < |layers[i].blocks|
    ensures of[i] < |targets| && j < |targets[of[i]]| && names[i] in w.caches && names[i] in e.t.ids
    ensures UsableBlock(layers[i].blocks[j]) && r in log
            && SavedAs(e, r, targets[of[i]][j].key, e.t.ids[names[i]], rank)
    ensures HoldsInSlot(e, rank, names[i], targets[of[i]][j].block, r.raw)
    ensures var b := layers[i].blocks[j];
            HasRoom(host, layers[i].layout, Raw(b.host), StartOf(b.host))
            && HostImage(host, layers[i].layout, Raw(b.host), StartOf(b.host)) == r.image
  {
    LayerShape(e.t, w, rank, groups, targets, layers, names, of, i, j);
    var name, x := names[i], targets[of[i]][j];
    TargetFits(e, delivered, log, groups, targets, of[i], name, j, rank);
    r := SlotHoldsSaved(e, host, delivered, log, w, name, x.key, x.block, rank);
    var h := layers[i].blocks[j].host;
    assert Present(h) && Raw(h) == x.block.slots[SlotIndex(e.t, e.t.ids[name], rank).value];
    assert StartOf(h) == StartFor(e.t, e.t.ids[name]);
  }

  /** The slot-count check made sure that the slot is there. */
  lemma TargetFits(e: Env, delivered: set<Delivery>, log: set<Record>, groups: seq<seq<string>>,
                   targets: seq<seq<Target>>, g: nat, name: string, j: nat, rank: nat)
    requires SoundEnv(e) && TargetsFor(e, delivered, log, groups, targets) && g < |groups| && name in groups[g]
             && j < |targets[g]|
    ensures TargetKeyed(e, log, name, targets[g][j]) && SealedFrom(targets[g][j].block, targets[g][j].key, delivered)
    ensures SlotIndex(e.t, e.t.ids[name], rank).Ok? ==>
              SlotIndex(e.t, e.t.ids[name], rank).value < |targets[g][j].block.slots|
  {
    var k :| 0 <= k < |groups[g]| && groups[g][k] == name;
    assert TargetKeyed(e, log, groups[g][k], targets[g][j]);
    LookupNeverMisses(e.t, targets[g][j].block.slots, e.t.ids[name], rank);
  }

  /** With destinations in range, the copies of a load fit and do not overlap. */
  lemma LoadFits(e: Env, host: Host, delivered: set<Delivery>, log: set<Record>, w: Worker, rank: nat,
                 groups: seq<seq<string>>, targets: seq<seq<Target>>,
                 layers: seq<LayerTransfer>, names: seq<string>, of: seq<nat>, dev: Memory)
    requires Prepared(e, host, delivered, log, w, rank, groups, targets, layers, names, of) && DeviceHolds(w, dev)
    ensures Usable(layers)
    ensures InBlocks(layers) ==> Fitting(layers, dev, host)
  {
    forall i | 0 <= i < |layers| ensures UsableLayer(layers[i]) {
      forall j | 0 <= j < |layers[i].blocks| ensures UsableBlock(layers[i].blocks[j]) {
        var r := LayerBlock(e, host, delivered, log, w, rank, groups, targets, layers, names, of, i, j);
      }
    }
    if InBlocks(layers) {
      forall i | 0 <= i < |layers| ensures FittingLayer(layers[i], dev, host) {
        assert Loadable(e.t, w, rank, names[i]) && layers[i].layout == w.caches[names[i]];
        LayerHasLayout(e, w, names[i]);
        forall j | 0 <= j < |layers[i].blocks| ensures FittingBlock(layers[i].layout, layers[i].blocks[j], host) {
          var r := LayerBlock(e, host, delivered, log, w, rank, groups, targets, layers, names, of, i, j);
          assert LayerInBlocks(layers[i], |layers[i].blocks|);
        }
      }
    }
  }

  lemma LoadApart(t: LayerTopology, w: Worker, rank: nat, groups: seq<seq<string>>, targets: seq<seq<Target>>,
                  layers: seq<LayerTransfer>, names: seq<string>, of: seq<nat>)
    requires Builds(t, w, rank, groups, targets, layers, names, of) && Usable(layers) && InBlocks(layers)
             && LayersDisjoint(w)
    requires forall g | 0 <= g < |groups| :: DistinctDests(targets[g])
    requires forall n | n in w.caches :: Layout.Sound(w.caches[n])
    ensures ApartOnDevices(layers)
  {
    forall c, d | ValidCoord(layers, c) && ValidCoord(layers, d) && c != d
      ensures ApartOnDevice(DescAt(layers, c), DescAt(layers, d))
    {
      RangesApart(t, w, rank, groups, targets, layers, names, of, c, d);
    }
  }

  lemma RangesApart(t: LayerTopology, w: Worker, rank: nat, groups: seq<seq<string>>, targets: seq<seq<Target>>,
                    layers: seq<LayerTransfer>, names: seq<string>, of: seq<nat>, c: Coord, d: Coord)
    requires Builds(t, w, rank, groups, targets, layers, names, of) && Usable(layers) && InBlocks(layers)
             && LayersDisjoint(w)
    requires forall g | 0 <= g < |groups| :: DistinctDests(targets[g])
    requires forall n | n in w.caches :: Layout.Sound(w.caches[n])
    requires ValidCoord(layers, c) && ValidCoord(layers, d) && c != d
    ensures ApartOnDevice(DescAt(layers, c), DescAt(layers, d))
  {
    LayerShape(t, w, rank, groups, targets, layers, names, of, c.layer, c.block);
    LayerShape(t, w, rank, groups, targets, layers, names, of, d.layer, d.block);
    var l, m := layers[c.layer].layout, layers[d.layer].layout;
    var b, x := layers[c.layer].blocks[c.block].index, layers[d.layer].blocks[d.block].index;
    assert LayerInBlocks(layers[c.layer], |layers[c.layer].blocks|)
           && LayerInBlocks(layers[d.layer], |layers[d.layer].blocks|);
    assert ValidPart(l, b, c.part) && ValidPart(m, x, d.part);
    if c.layer != d.layer {
      assert names[c.layer] != names[d.layer];
    } else {
      assert DistinctDests(targets[of[c.layer]]);
      assert (b, c.part) != (x, d.part);
    }
    assert Disjoint(PartRange(l, b, c.part), PartRange(m, x, d.part));
  }

  /** Save and load are inverse: after a load every destination holds what the save of its slot recorded. */
  lemma LoadRestores(e: Env, host: Host, delivered: set<Delivery>, log: set<Record>, w: Worker, rank: nat,
                     groups: seq<seq<string>>, targets: seq<seq<Target>>,
                     layers: seq<LayerTransfer>, names: seq<string>, of: seq<nat>, dev: Memory, g: nat, k: nat, j: nat)
    requires Prepared(e, host, delivered, log, w, rank, groups, targets, layers, names, of) && DeviceHolds(w, dev)
    requires Complete(groups, targets, names, of) && InBlocks(layers)
    requires g < |groups| && k < |groups[g]| && j < |targets[g]|
    ensures Fitting(layers, dev, host) && AllFit(AllDescs(layers), dev, host)
    ensures Restored(e, log, ToDevice(dev, host, AllDescs(layers)), w, rank, groups[g][k], targets[g][j])
  {
    LoadFits(e, host, delivered, log, w, rank, groups, targets, layers, names, of, dev);
    DescsFit(layers, dev, host);
    AllSound(e, w);
    LoadApart(e.t, w, rank, groups, targets, layers, names, of);
    assert Loads(names, of, groups[g][k], g);
    var i :| 0 <= i < |names| && names[i] == groups[g][k] && of[i] == g;
    assert layers[i] == LayerFor(e.t, w, rank, names[i], targets[g]);
    BlockRestored(e, host, delivered, log, w, rank, groups, targets, layers, names, of, dev, i, j);
  }

  lemma AllSound(e: Env, w: Worker)
    requires SoundEnv(e) && KnownWorker(e, w)
    ensures forall n | n in w.caches :: Layout.Sound(w.caches[n])
  {
    forall n | n in w.caches ensures Layout.Sound(w.caches[n]) { LayerHasLayout(e, w, n); }
  }

  lemma BlockRestored(e: Env, host: Host, delivered: set<Delivery>, log: set<Record>, w: Worker, rank: nat,
                      groups: seq<seq<string>>, targets: seq<seq<Target>>,
                      layers: seq<LayerTransfer>, names: seq<string>, of: seq<nat>, dev: Memory, i: nat, j: nat)
    requires Prepared(e, host, delivered, log, w, rank, groups, targets, layers, names, of)
    requires Fitting(layers, dev, host) && ApartOnDevices(layers) && i < |layers| && j < |layers[i].blocks|
    ensures of[i] < |targets| && j < |targets[of[i]]| && AllFit(AllDescs(layers), dev, host)
    ensures Restored(e, log, ToDevice(dev, host, AllDescs(layers)), w, rank, names[i], targets[of[i]][j])
  {
    LoadMoves(layers, dev, host, i, j);
    LayerShape(e.t, w, rank, groups, targets, layers, names, of, i, j);
    var r := LayerBlock(e, host, delivered, log, w, rank, groups, targets, layers, names, of, i, j);
    var m := ToDevice(dev, host, AllDescs(layers));
    assert SameImage(m, host, layers[i].layout, layers[i].blocks[j]);
    assert RestoredFrom(e, m, w, rank, names[i], targets[of[i]][j], r);
  }

  // ------------------------------------------------------------ destinations

  /** Every destination of every layer is a block of that layer. */
  ghost predicate DestsInRange(w: Worker, groups: seq<seq<string>>, targets: seq<seq<Target>>)
    requires |targets| == |groups|
  {
    forall g, k, j | 0 <= g < |groups| && 0 <= k < |groups[g]| && 0 <= j < |targets[g]| ::
      DestInRange(w, groups[g][k], targets[g][j])
  }

  ghost predicate DestInRange(w: Worker, name: string, x: Target) {
    name in w.caches && x.dest < w.caches[name].numBlocks
  }

  lemma InBlocksExactly(t: LayerTopology, w: Worker, rank: nat, groups: seq<seq<string>>, targets: seq<seq<Target>>,
                        layers: seq<LayerTransfer>, names: seq<string>, of: seq<nat>)
    requires Builds(t, w, rank, groups, targets, layers, names, of) && Complete(groups, targets, names, of)
    ensures InBlocks(layers) <==> DestsInRange(w, groups, targets)
  {
    if InBlocks(layers) {
      forall g, k, j | 0 <= g < |groups| && 0 <= k < |groups[g]| && 0 <= j < |targets[g]|
        ensures DestInRange(w, groups[g][k], targets[g][j])
      {
        assert Loads(names, of, groups[g][k], g);
        var i :| 0 <= i < |names| && names[i] == groups[g][k] && of[i] == g;
        assert LayerInBlocks(layers[i], |layers[i].blocks|) && layers[i] == LayerFor(t, w, rank, names[i], targets[g]);
        assert layers[i].blocks[j].index == targets[g][j].dest;
      }
    }
    if DestsInRange(w, groups, targets) {
      forall i | 0 <= i < |layers| ensures LayerInBlocks(layers[i], |layers[i].blocks|) {
        var g := of[i];
        var k :| 0 <= k < |groups[g]| && groups[g][k] == names[i];
        assert layers[i] == LayerFor(t, w, rank, names[i], targets[g]);
        forall j | 0 <= j < |layers[i].blocks| ensures layers[i].blocks[j].index < layers[i].layout.numBlocks {
          assert DestInRange(w, groups[g][k], targets[g][j]);
        }
      }
    }
  }

  /** Byte `x` belongs to no destination of the load. */
  ghost predicate Untargeted(w: Worker, groups: seq<seq<string>>, targets: seq<seq<Target>>, x: nat)
    requires |targets| == |groups|
  {
    forall g, k, j, p: nat | 0 <= g < |groups| && 0 <= k < |groups[g]| && 0 <= j < |targets[g]|
        && groups[g][k] in w.caches ::
      !InPart(w.caches[groups[g][k]], targets[g][j].dest, p, x)
  }

  ghost predicate InPart(l: KVCacheLayout, block: nat, part: nat, x: nat) {
    ValidPart(l, block, part)
        && PartRange(l, block, part).addr <= x < PartRange(l, block, part).addr + PartRange(l, block, part).bytes
  }

  /** A load changes nothing but its destinations. */
  lemma LoadTouchesOnlyTargets(t: LayerTopology, host: Host, w: Worker, rank: nat, groups: seq<seq<string>>,
                               targets: seq<seq<Target>>,
                               layers: seq<LayerTransfer>, names: seq<string>, of: seq<nat>, dev: Memory, x: nat)
    requires Builds(t, w, rank, groups, targets, layers, names, of) && Fitting(layers, dev, host)
    requires x < |dev| && Untargeted(w, groups, targets, x)
    ensures AllFit(AllDescs(layers), dev, host) && ToDevice(dev, host, AllDescs(layers))[x] == dev[x]
  {
    forall c | ValidCoord(layers, c) ensures !InDevice(DescAt(layers, c), x) {
      LayerShape(t, w, rank, groups, targets, layers, names, of, c.layer, c.block);
      var g := of[c.layer];
      var k :| 0 <= k < |groups[g]| && groups[g][k] == names[c.layer];
      assert LayerInBlocks(layers[c.layer], |layers[c.layer].blocks|);
      assert !InPart(w.caches[groups[g][k]], targets[g][c.block].dest, c.part, x);
    }
    LoadLeaves(layers, dev, host, x);
  }
}
