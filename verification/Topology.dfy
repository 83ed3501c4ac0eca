/** Where a sealed instance stores each layer: storage groups, slots and pages. */
module Topology {
  import opened Common
  import opened Seqs
  import opened PageLayouts

  /** Layer ids are positions in `names`, which is sorted; the other sequences are indexed by layer id or group id. */
  datatype LayerTopology = LayerTopology(
    names: seq<string>, ids: map<string, nat>, tpSize: nat,
    layerGroup: seq<nat>, groupCount: seq<nat>, groupRank: seq<nat>, page: Option<PageLayout>)

  datatype TopologyError = LayerOutOfRange | RankOutOfRange | GroupOutOfRange

  function TotalSlots(t: LayerTopology): nat {
    match t.page
    case Some(p) => |p.pageSizes|
    case None => |t.names| * t.tpSize
  }

  function GroupTotalSlots(t: LayerTopology, group: nat): Result<nat, TopologyError> {
    if group >= |t.groupCount| then Err(GroupOutOfRange)
    else
      match t.page
      case Some(p) => Ok(|p.pageSizes|)
      case None => Ok(t.groupCount[group] * t.tpSize)
  }

  function SlotIndex(t: LayerTopology, layer: nat, tpRank: nat): Result<nat, TopologyError>
    requires Shaped(t)
  {
    if layer >= |t.names| then Err(LayerOutOfRange)
    else if tpRank >= t.tpSize then Err(RankOutOfRange)
    else
      match t.page
      case Some(p) => Ok(p.shard[layer])
      case None => Ok(t.groupRank[layer] * t.tpSize + tpRank)
  }

  predicate Shaped(t: LayerTopology) {
    && |t.layerGroup| == |t.groupRank| == |t.names|
    && (t.page.Some? ==> |t.page.value.shard| == |t.page.value.offset| == |t.page.value.bytes| == |t.names|)
  }

  /** Ranks number the layers of each group densely, in layer order; page-first layers lie in existing shards. */
  ghost predicate Ranked(t: LayerTopology) {
    && Shaped(t)
    && (forall x | 0 <= x < |t.names| :: t.layerGroup[x] < |t.groupCount|)
    && (forall x | 0 <= x < |t.names| :: t.groupRank[x] == CountIf(t.layerGroup[..x], Is(t.layerGroup[x])))
    && (forall g | 0 <= g < |t.groupCount| :: t.groupCount[g] == CountIf(t.layerGroup, Is(g)))
    && (t.page.Some? ==> forall x | 0 <= x < |t.names| :: t.page.value.shard[x] < |t.page.value.pageSizes|)
  }

  // ------------------------------------------------------------ slots of a group are a bijection

  lemma {:induction false} RankBelow(groups: seq<nat>, x: nat, y: nat)
    requires x < y <= |groups|
    ensures CountIf(groups[..x], Is(groups[x])) < CountIf(groups[..y], Is(groups[x]))
  {
    var p := Is(groups[x]);
    assert groups[..y] == groups[..x] + [groups[x]] + groups[x+1..y];
    CountAppend(groups[..x] + [groups[x]], groups[x+1..y], p);
    CountAppend(groups[..x], [groups[x]], p);
    CountOne(groups[x], p);
  }

  lemma {:induction false} RankReached(groups: seq<nat>, g: nat, rank: nat, n: nat) returns (x: nat)
    requires n <= |groups| && rank < CountIf(groups[..n], Is(g))
    ensures x < n && groups[x] == g && CountIf(groups[..x], Is(g)) == rank
  {
    assert n > 0;
    assert groups[..n] == groups[..n-1] + [groups[n-1]];
    CountAppend(groups[..n-1], [groups[n-1]], Is(g));
    CountOne(groups[n-1], Is(g));
    if rank < CountIf(groups[..n-1], Is(g)) {
      x := RankReached(groups, g, rank, n - 1);
    } else {
      x := n - 1;
    }
  }

  /** A layer's slot is one of its group's slots, page-first or not. */
  lemma SlotInGroup(t: LayerTopology, layer: nat, tpRank: nat)
    requires Ranked(t) && layer < |t.names| && tpRank < t.tpSize
    ensures SlotIndex(t, layer, tpRank).Ok? && GroupTotalSlots(t, t.layerGroup[layer]).Ok?
    ensures SlotIndex(t, layer, tpRank).value < GroupTotalSlots(t, t.layerGroup[layer]).value
  {
    if t.page.None? {
      RankBelow(t.layerGroup, layer, |t.layerGroup|);
      assert t.layerGroup[..|t.layerGroup|] == t.layerGroup;
      CellInGrid(t.tpSize, t.groupCount[t.layerGroup[layer]], t.groupRank[layer], tpRank);
    }
  }

  /** Two layers of a group never share a slot, nor do two ranks of a layer. */
  lemma SlotInjective(t: LayerTopology, x: nat, i: nat, y: nat, j: nat)
    requires Ranked(t) && t.page.None? && x < |t.names| && y < |t.names| && i < t.tpSize && j < t.tpSize
    requires t.layerGroup[x] == t.layerGroup[y] && SlotIndex(t, x, i) == SlotIndex(t, y, j)
    ensures x == y && i == j
  {
    CellUnique(t.tpSize, t.groupRank[x], i, t.groupRank[y], j);
    if x < y { RankBelow(t.layerGroup, x, y); } else if y < x { RankBelow(t.layerGroup, y, x); }
  }

  /** Slots of a group go layer by layer in layer order, and rank by rank within a layer. */
  lemma SlotsInOrder(t: LayerTopology, x: nat, i: nat, y: nat, j: nat)
    requires Ranked(t) && t.page.None? && x < |t.names| && y < |t.names| && i < t.tpSize && j < t.tpSize
    requires t.layerGroup[x] == t.layerGroup[y]
    ensures SlotIndex(t, x, i).Ok? && SlotIndex(t, y, j).Ok?
    ensures SlotIndex(t, x, i).value < SlotIndex(t, y, j).value <==> x < y || (x == y && i < j)
  {
    if x < y {
      RankBelow(t.layerGroup, x, y);
      CellsInOrder(t.tpSize, t.groupRank[x], i, t.groupRank[y], j);
    } else if y < x {
      RankBelow(t.layerGroup, y, x);
      CellsInOrder(t.tpSize, t.groupRank[y], j, t.groupRank[x], i);
    }
  }

  lemma CellsInOrder(width: nat, row: nat, i: nat, later: nat, j: nat)
    requires i < width && row < later
    ensures row * width + i < later * width + j
  {
    assert later * width >= (row + 1) * width == row * width + width;
  }

  /** There is a slot exactly for the layers and ranks of the instance; page-first it is the layer's shard. */
  lemma SlotIndexExactly(t: LayerTopology, layer: nat, tpRank: nat)
    requires Shaped(t)
    ensures SlotIndex(t, layer, tpRank).Ok? <==> layer < |t.names| && tpRank < t.tpSize
    ensures layer < |t.names| && tpRank < t.tpSize && t.page.Some? ==>
              SlotIndex(t, layer, tpRank) == Ok(t.page.value.shard[layer])
  {
  }

  /** Two ranks share the slot of a layer exactly in page-first topologies. */
  lemma RanksShareSlot(t: LayerTopology, layer: nat, i: nat, j: nat)
    requires Shaped(t) && layer < |t.names| && i < t.tpSize && j < t.tpSize && i != j
    ensures SlotIndex(t, layer, i) == SlotIndex(t, layer, j) <==> t.page.Some?
  {
  }

  /** The slot of a layer tells its ranks apart. */
  ghost predicate SlotTellsRank(t: LayerTopology, layer: nat)
    requires Shaped(t) && layer < |t.names|
  {
    forall i: nat, j: nat | i < t.tpSize && j < t.tpSize && SlotIndex(t, layer, i) == SlotIndex(t, layer, j) :: i == j
  }

  predicate RankKept(t: LayerTopology) { t.page.None? || t.tpSize <= 1 }

  /** So the rank of a save survives exactly without pages or with a single rank. */
  lemma RankKeptExactly(t: LayerTopology, layer: nat)
    requires Shaped(t) && layer < |t.names|
    ensures SlotTellsRank(t, layer) <==> RankKept(t)
  {
    if !RankKept(t) { RanksShareSlot(t, layer, 0, 1); }
  }

  /** Every slot of a group belongs to one of its layers and a rank. */
  lemma SlotSurjective(t: LayerTopology, group: nat, slot: nat) returns (layer: nat, tpRank: nat)
    requires Ranked(t) && t.page.None? && t.tpSize > 0
    requires GroupTotalSlots(t, group).Ok? && slot < GroupTotalSlots(t, group).value
    ensures layer < |t.names| && t.layerGroup[layer] == group && tpRank < t.tpSize
    ensures SlotIndex(t, layer, tpRank) == Ok(slot)
  {
    var rank := slot / t.tpSize;
    tpRank := slot % t.tpSize;
    CellOfNumber(t.tpSize, t.groupCount[group], slot);
    assert t.layerGroup[..|t.names|] == t.layerGroup;
    layer := RankReached(t.layerGroup, group, rank, |t.names|);
  }

  /** After the slot-count check of a load, no slot lookup of that storage group misses. */
  lemma LookupNeverMisses<T>(t: LayerTopology, slots: seq<T>, layer: nat, tpRank: nat)
    requires Ranked(t) && layer < |t.names|
    requires GroupTotalSlots(t, t.layerGroup[layer]) == Ok(|slots|)
    ensures SlotIndex(t, layer, tpRank).Ok? ==> SlotIndex(t, layer, tpRank).value < |slots|
  {
    if tpRank < t.tpSize { SlotInGroup(t, layer, tpRank); }
  }
}
