/** Host memory for a save: where each block of each layer is copied to, layer-first or page-first. */
module SaveTargets {
  import opened Common
  import opened Seqs
  import opened Layout
  import opened Blocks
  import opened Transfer
  import opened CopyDescs
  import opened PageLayouts
  import opened Topology
  import opened Sealing

  /** One layer of a save: the device blocks to store and the hash of each. */
  datatype Context = Context(layer: nat, layout: KVCacheLayout, slot: nat, group: nat, blocks: seq<(nat, Hash)>)

  /** A layout as registration constructs it. */
  ghost predicate Registered(l: KVCacheLayout) { Layout.WellFormed(l) && Layout.Sound(l) && l.padded >= l.segmentBytes }

  lemma PaddedRoom(l: KVCacheLayout)
    requires Registered(l)
    ensures PaddedBlock(l) >= BlockBytes(l) > 0
  {
    MulOrder(l.segments, l.segmentBytes, l.padded);
  }

  // ------------------------------------------------------------ allocation

  /** `h` has everything `g` has, unchanged. */
  ghost predicate Extends(h: Host, g: Host) { forall a | a in g :: a in h && h[a] == g[a] }

  ghost predicate Above(ids: set<nat>, x: nat) { forall y | y in ids :: y < x }

  lemma {:induction false} FreshId(ids: set<nat>)
    ensures exists x: nat :: Above(ids, x)
  {
    if ids == {} {
      assert Above(ids, 0);
    } else {
      var z :| z in ids;
      FreshId(ids - {z});
      var x: nat :| Above(ids - {z}, x);
      assert forall y | y in ids :: y == z || y in ids - {z};
      assert Above(ids, x + z + 1);
    }
  }

  /** A pinned allocation: an id not in use, with whatever the pool last held there; or none is left. */
  method Allocate(host: Host, size: nat) returns (r: Option<nat>, h: Host)
    ensures Extends(h, host)
    ensures r.Some? ==> r.value !in host && r.value in h && |h[r.value]| == size && h.Keys == host.Keys + {r.value}
    ensures r.None? ==> h == host
  {
    if * { return None, host; }
    FreshId(host.Keys);
    ghost var top: nat :| Above(host.Keys, top);
    assert top !in host;
    var id: nat :| id !in host;
    assert |seq(size, _ => 0 as Byte)| == size;
    var junk: Memory :| |junk| == size;
    return Some(id), host[id := junk];
  }

  function Stride(l: KVCacheLayout): nat { if l.seg.Split? then l.padded else PaddedBlock(l) }

  /** Block `i` of a piece; `v` is used only when K and V are apart. */
  function RawAt(l: KVCacheLayout, k: nat, v: nat, i: nat): RawBlock {
    if l.seg.Split? then RawBlock([Segment(k, i * l.padded, l.padded), Segment(v, i * l.padded, l.padded)])
    else RawBlock([Segment(k, i * PaddedBlock(l), PaddedBlock(l))])
  }

  ghost predicate OneRoom(h: Host, l: KVCacheLayout, raw: RawBlock) {
    |raw.segments| == NumRanges(l) && HasRoom(h, l, raw, 0)
  }

  ghost predicate Within(raw: RawBlock, allocs: set<nat>) { forall s | s in raw.segments :: s.alloc in allocs }

  predicate RegionsApart(a: (nat, nat), b: (nat, nat), bytes: nat) {
    a.0 != b.0 || a.1 + bytes <= b.1 || b.1 + bytes <= a.1
  }

  /** No part of one block shares a byte with a part of the other. */
  ghost predicate RawsApart(l: KVCacheLayout, a: RawBlock, b: RawBlock)
    requires |a.segments| > 0 && |b.segments| > 0
  {
    forall p: nat, q: nat | p < NumRanges(l) && q < NumRanges(l) ::
      RegionsApart(HostPart(a, 0, l.segmentBytes, p), HostPart(b, 0, l.segmentBytes, q), PartBytes(l))
  }

  ghost predicate PartsApart(l: KVCacheLayout, a: RawBlock)
    requires |a.segments| > 0
  {
    l.seg.Split? ==> RegionsApart(HostPart(a, 0, l.segmentBytes, 0), HostPart(a, 0, l.segmentBytes, 1), PartBytes(l))
  }

  /** Blocks for one layer, all in allocations of `h` that `g` does not have. */
  ghost predicate Placed(raws: seq<RawBlock>, l: KVCacheLayout, g: Host, h: Host) {
    && (forall j | 0 <= j < |raws| ::
          OneRoom(h, l, raws[j]) && PartsApart(l, raws[j]) && Within(raws[j], h.Keys - g.Keys))
    && (forall j, k | 0 <= j < k < |raws| :: RawsApart(l, raws[j], raws[k]))
  }

  lemma PieceBlock(l: KVCacheLayout, g: Host, h: Host, k: nat, v: nat, per: nat, i: nat)
    requires Registered(l) && i < per && k in h && k !in g && v in h && v !in g && (l.seg.Split? ==> k != v)
    requires |h[k]| == Stride(l) * per && |h[v]| == Stride(l) * per
    ensures var raw := RawAt(l, k, v, i); OneRoom(h, l, raw) && PartsApart(l, raw) && Within(raw, h.Keys - g.Keys)
  {
    PaddedRoom(l);
    MulGap(Stride(l), i, per);
  }

  /** A block ends before a later one begins. */
  lemma PieceGap(l: KVCacheLayout, i: nat, j: nat)
    requires Registered(l) && i < j
    ensures i * Stride(l) + PartBytes(l) <= j * Stride(l)
  {
    PaddedRoom(l);
    MulGap(Stride(l), i, j);
  }

  lemma PieceStart(l: KVCacheLayout, k: nat, v: nat, i: nat, p: nat)
    requires p < NumRanges(l)
    ensures HostPart(RawAt(l, k, v, i), 0, l.segmentBytes, p) == (if p == 0 then k else v, i * Stride(l))
  {
  }

  lemma PieceApart(l: KVCacheLayout, k: nat, v: nat, i: nat, j: nat)
    requires Registered(l) && i < j && (l.seg.Split? ==> k != v)
    ensures RawsApart(l, RawAt(l, k, v, i), RawAt(l, k, v, j))
  {
    var a, b := RawAt(l, k, v, i), RawAt(l, k, v, j);
    PieceGap(l, i, j);
    forall p: nat, q: nat | p < NumRanges(l) && q < NumRanges(l)
      ensures RegionsApart(HostPart(a, 0, l.segmentBytes, p), HostPart(b, 0, l.segmentBytes, q), PartBytes(l))
    {
      PieceStart(l, k, v, i, p);
      PieceStart(l, k, v, j, q);
    }
  }

  lemma PiecePlaced(l: KVCacheLayout, g: Host, h: Host, k: nat, v: nat, raws: seq<RawBlock>)
    requires Registered(l) && k in h && k !in g && v in h && v !in g && (l.seg.Split? ==> k != v)
    requires |h[k]| == Stride(l) * |raws| && |h[v]| == Stride(l) * |raws|
    requires forall j | 0 <= j < |raws| :: raws[j] == RawAt(l, k, v, j)
    ensures Placed(raws, l, g, h)
  {
    forall j | 0 <= j < |raws|
      ensures OneRoom(h, l, raws[j]) && PartsApart(l, raws[j]) && Within(raws[j], h.Keys - g.Keys)
    {
      PieceBlock(l, g, h, k, v, |raws|, j);
    }
    forall i, j | 0 <= i < j < |raws| ensures RawsApart(l, raws[i], raws[j]) { PieceApart(l, k, v, i, j); }
  }

  /** Room for `per` blocks in one allocation, or in one for K and one for V. */
  method AllocatePiece(host: Host, l: KVCacheLayout, per: nat) returns (r: Option<seq<RawBlock>>, h: Host)
    requires Registered(l)
    ensures Extends(h, host)
    ensures r.Some? ==> |r.value| == per && Placed(r.value, l, host, h)
  {
    var size := Stride(l) * per;
    if size == 0 || size > U64_MAX { return None, host; }
    var k, h1 := Allocate(host, size);
    if k.None? { return None, h1; }
    var v := k;
    h := h1;
    if l.seg.Split? {
      v, h := Allocate(h1, size);
      if v.None? { return None, h; }
    }
    var raws: seq<RawBlock> := [];
    for i := 0 to per
      invariant |raws| == i && forall j | 0 <= j < i :: raws[j] == RawAt(l, k.value, v.value, j)
    {
      raws := raws + [RawAt(l, k.value, v.value, i)];
    }
    PiecePlaced(l, host, h, k.value, v.value, raws);
    r := Some(raws);
  }

  lemma MorePlaced(l: KVCacheLayout, g: Host, h: Host, i: Host, raws: seq<RawBlock>, more: seq<RawBlock>)
    requires Placed(raws, l, g, h) && Placed(more, l, h, i) && Extends(h, g) && Extends(i, h)
    ensures Placed(raws + more, l, g, i)
  {
    var all := raws + more;
    forall j | 0 <= j < |all|
      ensures OneRoom(i, l, all[j]) && PartsApart(l, all[j]) && Within(all[j], i.Keys - g.Keys)
    {
      if j < |raws| { StaysPlaced(l, g, h, i, raws[j]); }
    }
    forall j, k | 0 <= j < k < |all| ensures RawsApart(l, all[j], all[k]) {
      if j < |raws| <= k { ApartByAlloc(l, raws[j], more[k-|raws|], h.Keys); }
    }
  }

  lemma StaysPlaced(l: KVCacheLayout, g: Host, h: Host, i: Host, raw: RawBlock)
    requires OneRoom(h, l, raw) && Within(raw, h.Keys - g.Keys) && Extends(i, h)
    ensures OneRoom(i, l, raw) && Within(raw, i.Keys - g.Keys)
  {
  }

  lemma ApartByAlloc(l: KVCacheLayout, a: RawBlock, b: RawBlock, allocs: set<nat>)
    requires |a.segments| > 0 && |b.segments| > 0
    requires (forall s | s in a.segments :: s.alloc in allocs) && (forall s | s in b.segments :: s.alloc !in allocs)
    ensures RawsApart(l, a, b)
  {
    assert a.segments[0] in a.segments && b.segments[0] in b.segments;
    assert |a.segments| > 1 ==> a.segments[1] in a.segments;
    assert |b.segments| > 1 ==> b.segments[1] in b.segments;
  }

  /** One allocation per block, or one for all blocks of the layer. */
  method AllocateLayer(host: Host, l: KVCacheLayout, n: nat, blockwise: bool)
    returns (r: Option<seq<RawBlock>>, h: Host)
    requires Registered(l)
    ensures Extends(h, host)
    ensures r.Some? ==> |r.value| == n && Placed(r.value, l, host, h)
  {
    h := host;
    if !blockwise {
      r, h := AllocatePiece(host, l, n);
      return;
    }
    var raws: seq<RawBlock> := [];
    for i := 0 to n
      invariant Extends(h, host) && |raws| == i && Placed(raws, l, host, h)
    {
      ghost var before := h;
      var piece, h1 := AllocatePiece(h, l, 1);
      h := h1;
      if piece.None? { return None, h; }
      MorePlaced(l, host, before, h, raws, piece.value);
      raws := raws + piece.value;
    }
    r := Some(raws);
  }

  // ------------------------------------------------------------ layer-first: every layer has its own blocks

  ghost predicate Matches(cs: seq<Context>, ts: seq<LayerTransfer>) {
    |ts| == |cs| && forall i | 0 <= i < |cs| :: MatchesOne(cs[i], ts[i])
  }

  ghost predicate MatchesOne(c: Context, t: LayerTransfer) {
    && t.layout == c.layout && |t.blocks| == |c.blocks|
    && forall j | 0 <= j < |c.blocks| :: t.blocks[j].index == c.blocks[j].0 && t.blocks[j].host.Owned?
  }

  ghost predicate HoldsRaws(t: LayerTransfer, raws: seq<RawBlock>) {
    |t.blocks| == |raws| && forall j | 0 <= j < |raws| :: t.blocks[j].host == Owned(raws[j])
  }

  /** The host blocks of a layer lie in `h`, not in `g`, and do not overlap. */
  ghost predicate LayerPlaced(t: LayerTransfer, g: Host, h: Host) {
    exists raws :: HoldsRaws(t, raws) && Placed(raws, t.layout, g, h)
  }

  /** Layer `i` was placed when `marks[i]` was there, and everything placed by then is in `marks[i+1]`. */
  ghost predicate PlacedInTurn(ts: seq<LayerTransfer>, marks: seq<Host>) {
    && |marks| == |ts| + 1
    && (forall i | 0 <= i < |ts| :: Extends(marks[i+1], marks[i]) && LayerPlaced(ts[i], marks[i], marks[i+1]))
  }

  method LayerFirstTargets(host: Host, cs: seq<Context>, blockwise: bool)
    returns (r: Option<seq<LayerTransfer>>, h: Host, ghost marks: seq<Host>)
    requires forall i | 0 <= i < |cs| :: Registered(cs[i].layout)
    ensures Extends(h, host)
    ensures r.Some? ==> Matches(cs, r.value) && PlacedInTurn(r.value, marks) && marks[0] == host && marks[|cs|] == h
  {
    h, marks := host, [host];
    var ts: seq<LayerTransfer> := [];
    for i := 0 to |cs|
      invariant |ts| == i && Extends(h, host) && PlacedInTurn(ts, marks) && marks[0] == host && marks[i] == h
      invariant forall k | 0 <= k < i :: MatchesOne(cs[k], ts[k])
    {
      var raws, h1 := AllocateLayer(h, cs[i].layout, |cs[i].blocks|, blockwise);
      if raws.None? {
        h := h1;
        return None, h, marks;
      }
      var t := LayerTransfer(cs[i].layout,
                             seq(|cs[i].blocks|, j requires 0 <= j < |cs[i].blocks| && |raws.value| == |cs[i].blocks| =>
                                                 TransferBlock(cs[i].blocks[j].0, Owned(raws.value[j]))));
      assert HoldsRaws(t, raws.value);
      h, ts, marks := h1, ts + [t], marks + [h1];
    }
    r := Some(ts);
  }

  lemma {:induction false} MarksGrow(ts: seq<LayerTransfer>, marks: seq<Host>, i: nat, k: nat)
    requires PlacedInTurn(ts, marks) && i <= k < |marks|
    ensures Extends(marks[k], marks[i])
  {
    if i < k { MarksGrow(ts, marks, i, k - 1); }
  }

  lemma BlockPlaced(ts: seq<LayerTransfer>, marks: seq<Host>, i: nat, j: nat)
    requires PlacedInTurn(ts, marks) && i < |ts| && j < |ts[i].blocks|
    ensures ts[i].blocks[j].host.Owned?
    ensures var raw := ts[i].blocks[j].host.block; var h := marks[|ts|];
            OneRoom(h, ts[i].layout, raw) && PartsApart(ts[i].layout, raw)
                && Within(raw, marks[i+1].Keys - marks[i].Keys)
  {
    assert LayerPlaced(ts[i], marks[i], marks[i+1]);
    var raws :| HoldsRaws(ts[i], raws) && Placed(raws, ts[i].layout, marks[i], marks[i+1]);
    MarksGrow(ts, marks, i + 1, |ts|);
    StaysPlaced(ts[i].layout, marks[i], marks[i+1], marks[|ts|], raws[j]);
  }

  lemma LayersUsable(ts: seq<LayerTransfer>, marks: seq<Host>)
    requires PlacedInTurn(ts, marks)
    ensures Usable(ts)
  {
    forall i | 0 <= i < |ts| ensures UsableLayer(ts[i]) {
      forall j | 0 <= j < |ts[i].blocks| ensures UsableBlock(ts[i].blocks[j]) { BlockPlaced(ts, marks, i, j); }
    }
  }

  /** The host position of a descriptor that belongs to a save. */
  lemma DescOnHost(ts: seq<LayerTransfer>, c: Coord)
    requires Usable(ts) && ValidCoord(ts, c) && ts[c.layer].blocks[c.block].host.Owned?
    ensures var l := ts[c.layer].layout; var raw := ts[c.layer].blocks[c.block].host.block; var d := DescAt(ts, c);
            |raw.segments| > 0 && (d.alloc, d.offset) == HostPart(raw, 0, l.segmentBytes, c.part)
                && d.size == PartBytes(l)
  {
    assert UsableLayer(ts[c.layer]);
  }

  /** No two ranges of a layer-first save go to the same host bytes. */
  lemma LayerFirstApart(ts: seq<LayerTransfer>, marks: seq<Host>)
    requires PlacedInTurn(ts, marks)
    ensures Usable(ts) && ApartOnHosts(ts)
  {
    LayersUsable(ts, marks);
    forall c, d | ValidCoord(ts, c) && ValidCoord(ts, d) && c != d ensures ApartOnHost(DescAt(ts, c), DescAt(ts, d)) {
      BlockPlaced(ts, marks, c.layer, c.block);
      BlockPlaced(ts, marks, d.layer, d.block);
      DescOnHost(ts, c);
      DescOnHost(ts, d);
      if c.layer < d.layer {
        LayersApartOnHost(ts, marks, c, d);
      } else if d.layer < c.layer {
        LayersApartOnHost(ts, marks, d, c);
      } else if c.block != d.block {
        BlocksApartOnHost(ts, marks, c, d);
      }
    }
  }

  lemma LayersApartOnHost(ts: seq<LayerTransfer>, marks: seq<Host>, c: Coord, d: Coord)
    requires PlacedInTurn(ts, marks) && Usable(ts) && ValidCoord(ts, c) && ValidCoord(ts, d) && c.layer < d.layer
    ensures DescAt(ts, c).alloc != DescAt(ts, d).alloc
  {
    BlockPlaced(ts, marks, c.layer, c.block);
    BlockPlaced(ts, marks, d.layer, d.block);
    DescOnHost(ts, c);
    DescOnHost(ts, d);
    MarksGrow(ts, marks, c.layer + 1, d.layer);
    PartAlloc(ts[c.layer].blocks[c.block].host.block, ts[c.layer].layout.segmentBytes, c.part);
    PartAlloc(ts[d.layer].blocks[d.block].host.block, ts[d.layer].layout.segmentBytes, d.part);
  }

  lemma PartAlloc(raw: RawBlock, segmentBytes: nat, part: nat)
    requires |raw.segments| > 0
    ensures exists s | s in raw.segments :: s.alloc == HostPart(raw, 0, segmentBytes, part).0
  {
    assert raw.segments[0] in raw.segments;
    assert |raw.segments| > 1 ==> raw.segments[1] in raw.segments;
  }

  lemma BlocksApartOnHost(ts: seq<LayerTransfer>, marks: seq<Host>, c: Coord, d: Coord)
    requires PlacedInTurn(ts, marks) && Usable(ts) && ValidCoord(ts, c) && ValidCoord(ts, d)
    requires c.layer == d.layer && c.block != d.block
    ensures ApartOnHost(DescAt(ts, c), DescAt(ts, d))
  {
    var i := c.layer;
    assert LayerPlaced(ts[i], marks[i], marks[i+1]);
    var raws :| HoldsRaws(ts[i], raws) && Placed(raws, ts[i].layout, marks[i], marks[i+1]);
    DescOnHost(ts, c);
    DescOnHost(ts, d);
    if c.block < d.block {
      assert RawsApart(ts[i].layout, raws[c.block], raws[d.block]);
    } else {
      assert RawsApart(ts[i].layout, raws[d.block], raws[c.block]);
    }
  }

  // ------------------------------------------------------------ page-first: one page per block holds a whole shard

  datatype PageRefusal = SplitLayout | ManyShards | MixedBlocks | PartialShard | EmptyPage | NoMemory

  /** The layers of one shard. */
  ghost function ShardLayers(shard: seq<nat>, s: nat, n: nat): (r: set<nat>)
    requires n <= |shard|
    ensures forall x :: x in r <==> 0 <= x < n && shard[x] == s
    ensures |r| == CountIf(shard[..n], Is(s))
  {
    if n == 0 then {}
    else
      var front := ShardLayers(shard, s, n - 1);
      assert shard[..n] == shard[..n-1] + [shard[n-1]];
      CountAppend(shard[..n-1], [shard[n-1]], Is(s));
      CountOne(shard[n-1], Is(s));
      if shard[n-1] == s then front + {n - 1} else front
  }

  ghost predicate Paged(t: LayerTopology) { t.page.Some? && Shaped(t) }

  ghost predicate PageContext(t: LayerTopology, c: Context)
    requires Paged(t)
  {
    && c.layer < |t.names| && Registered(c.layout)
    && c.slot == t.page.value.shard[c.layer] && t.page.value.bytes[c.layer] == PaddedBlock(c.layout)
  }

  /** What a page-first save asks of its layers. */
  ghost predicate OneWholeShard(t: LayerTopology, cs: seq<Context>)
    requires Paged(t) && |cs| > 0
  {
    && (forall i | 0 <= i < |cs| ::
          !cs[i].layout.seg.Split? && cs[i].slot == cs[0].slot && cs[i].blocks == cs[0].blocks)
    && (forall x | 0 <= x < |t.page.value.shard| && t.page.value.shard[x] == cs[0].slot :: HasContext(cs, x))
  }

  ghost predicate HasContext(cs: seq<Context>, layer: nat) { exists i | 0 <= i < |cs| :: cs[i].layer == layer }

  method LayersSaved(cs: seq<Context>) returns (ids: set<nat>)
    ensures forall x :: x in ids <==> HasContext(cs, x)
  {
    ids := {};
    for i := 0 to |cs|
      invariant forall x :: x in ids <==> HasContext(cs[..i], x)
    {
      forall x ensures HasContext(cs[..i+1], x) <==> HasContext(cs[..i], x) || x == cs[i].layer {
        if HasContext(cs[..i], x) {
          var k :| 0 <= k < i && cs[..i][k].layer == x;
          assert cs[..i+1][k].layer == x;
        }
        assert cs[..i+1][i] == cs[i];
      }
      ids := ids + {cs[i].layer};
    }
    assert cs[..|cs|] == cs;
  }

  lemma CoverByCount(t: LayerTopology, cs: seq<Context>, ids: set<nat>)
    requires Paged(t) && |cs| > 0 && (forall i | 0 <= i < |cs| :: PageContext(t, cs[i]) && cs[i].slot == cs[0].slot)
    requires forall x :: x in ids <==> HasContext(cs, x)
    ensures var p := t.page.value;
            |ids| == CountIf(p.shard, Is(cs[0].slot)) <==>
            forall x | 0 <= x < |p.shard| && p.shard[x] == cs[0].slot :: HasContext(cs, x)
  {
    var p := t.page.value;
    var all := ShardLayers(p.shard, cs[0].slot, |p.shard|);
    assert p.shard[..|p.shard|] == p.shard;
    forall x | x in ids ensures x in all {
      var i :| 0 <= i < |cs| && cs[i].layer == x;
      assert PageContext(t, cs[i]);
    }
    if |ids| == |all| { SameSizeSame(ids, all); }
    if all <= ids { assert ids == all; }
  }

  method CheckShard(t: LayerTopology, cs: seq<Context>) returns (r: Option<PageRefusal>)
    requires Paged(t) && |cs| > 0 && forall i | 0 <= i < |cs| :: PageContext(t, cs[i])
    ensures r.None? <==> OneWholeShard(t, cs)
  {
    for i := 0 to |cs|
      invariant forall k | 0 <= k < i ::
                  !cs[k].layout.seg.Split? && cs[k].slot == cs[0].slot && cs[k].blocks == cs[0].blocks
    {
      if cs[i].layout.seg.Split? { return Some(SplitLayout); }
      if cs[i].slot != cs[0].slot { return Some(ManyShards); }
      if cs[i].blocks != cs[0].blocks { return Some(MixedBlocks); }
    }
    var ids := LayersSaved(cs);
    CoverByCount(t, cs, ids);
    if |ids| != CountIf(t.page.value.shard, Is(cs[0].slot)) { return Some(PartialShard); }
    r := None;
  }

  /** Pages are fresh, distinct and of the shard's page size. */
  ghost predicate FreshPages(pages: seq<nat>, size: nat, g: Host, h: Host) {
    && (forall j | 0 <= j < |pages| :: pages[j] in h && pages[j] !in g && |h[pages[j]]| == size)
    && NoRepeats(pages)
  }

  method AllocatePages(host: Host, size: nat, n: nat) returns (r: Option<seq<nat>>, h: Host)
    ensures Extends(h, host)
    ensures r.Some? ==> |r.value| == n && FreshPages(r.value, size, host, h)
  {
    h := host;
    var pages: seq<nat> := [];
    for j := 0 to n
      invariant Extends(h, host) && |pages| == j && FreshPages(pages, size, host, h)
    {
      var page, h1 := Allocate(h, size);
      h := h1;
      if page.None? { return None, h; }
      pages := pages + [page.value];
    }
    r := Some(pages);
  }

  /** The part of a page that belongs to one layer. */
  function PagePiece(p: PageLayout, layer: nat, page: nat): RawBlock
    requires layer < |p.offset| && layer < |p.bytes|
  {
    RawBlock([Segment(page, p.offset[layer], p.bytes[layer])])
  }

  ghost predicate CutFrom(t: LayerTopology, cs: seq<Context>, pages: seq<nat>, ts: seq<LayerTransfer>)
    requires Paged(t) && forall i | 0 <= i < |cs| :: PageContext(t, cs[i])
  {
    && Matches(cs, ts)
    && forall i | 0 <= i < |cs| :: CutOne(t, cs[i], pages, ts[i])
  }

  ghost predicate CutOne(t: LayerTopology, c: Context, pages: seq<nat>, lt: LayerTransfer)
    requires Paged(t) && PageContext(t, c)
  {
    |lt.blocks| == |pages| && forall j | 0 <= j < |pages| ::
      lt.blocks[j].host == Owned(PagePiece(t.page.value, c.layer, pages[j]))
  }

  method PageFirstTargets(host: Host, t: LayerTopology, cs: seq<Context>)
    returns (r: Result<(seq<nat>, seq<LayerTransfer>), PageRefusal>, h: Host)
    requires Paged(t) && |cs| > 0 && forall i | 0 <= i < |cs| :: PageContext(t, cs[i])
    requires cs[0].slot < |t.page.value.pageSizes|
    ensures Extends(h, host)
    ensures r.Ok? ==> OneWholeShard(t, cs)
    ensures r.Err? ==>
              !OneWholeShard(t, cs) || r.error == NoMemory
              || (r.error == EmptyPage && t.page.value.pageSizes[cs[0].slot] == 0)
    ensures r.Ok? ==>
              |r.value.0| == |cs[0].blocks| && FreshPages(r.value.0, t.page.value.pageSizes[cs[0].slot], host, h)
    ensures r.Ok? ==> CutFrom(t, cs, r.value.0, r.value.1)
  {
    h := host;
    var refused := CheckShard(t, cs);
    if refused.Some? { return Err(refused.value), h; }
    var p := t.page.value;
    var size := p.pageSizes[cs[0].slot];
    if size == 0 { return Err(EmptyPage), h; }
    var pages;
    pages, h := AllocatePages(host, size, |cs[0].blocks|);
    if pages.None? { return Err(NoMemory), h; }
    var ts: seq<LayerTransfer> := [];
    for i := 0 to |cs|
      invariant |ts| == i
      invariant forall k | 0 <= k < i :: MatchesOne(cs[k], ts[k]) && CutOne(t, cs[k], pages.value, ts[k])
    {
      var lt := CutLayer(t, cs[i], pages.value);
      ts := ts + [lt];
    }
    r := Ok((pages.value, ts));
  }

  method CutLayer(t: LayerTopology, c: Context, pages: seq<nat>) returns (lt: LayerTransfer)
    requires Paged(t) && PageContext(t, c) && |pages| == |c.blocks|
    ensures MatchesOne(c, lt) && CutOne(t, c, pages, lt)
  {
    var blocks: seq<TransferBlock> := [];
    for j := 0 to |pages|
      invariant |blocks| == j
      invariant forall k | 0 <= k < j ::
                  blocks[k] == TransferBlock(c.blocks[k].0, Owned(PagePiece(t.page.value, c.layer, pages[k])))
    {
      blocks := blocks + [TransferBlock(c.blocks[j].0, Owned(PagePiece(t.page.value, c.layer, pages[j])))];
    }
    lt := LayerTransfer(c.layout, blocks);
  }

  ghost predicate Described(t: LayerTopology)
    requires Paged(t)
  {
    exists shards :: Describes(t.page.value, shards, t.page.value.bytes)
  }

  lemma PieceRoom(t: LayerTopology, c: Context, h: Host, page: nat)
    requires Paged(t) && PageContext(t, c) && Described(t) && !c.layout.seg.Split?
    requires c.slot < |t.page.value.pageSizes| && page in h && |h[page]| == t.page.value.pageSizes[c.slot]
    ensures HasRoom(h, c.layout, PagePiece(t.page.value, c.layer, page), 0)
  {
    var p := t.page.value;
    var shards :| Describes(p, shards, p.bytes);
    LayerInPage(p, shards, p.bytes, c.layer);
    PaddedRoom(c.layout);
  }

  lemma PageNotEmpty(t: LayerTopology, c: Context)
    requires Paged(t) && PageContext(t, c) && Described(t) && c.slot < |t.page.value.pageSizes|
    ensures t.page.value.pageSizes[c.slot] > 0
  {
    var p := t.page.value;
    var shards :| Describes(p, shards, p.bytes);
    LayerInPage(p, shards, p.bytes, c.layer);
    PaddedRoom(c.layout);
  }

  ghost predicate SameLayerSameLayout(cs: seq<Context>) {
    forall i, k | 0 <= i < |cs| && 0 <= k < |cs| && cs[i].layer == cs[k].layer :: cs[i].layout == cs[k].layout
  }

  /** Everything a finished page-first allocation promises. */
  ghost predicate PagesCut(t: LayerTopology, cs: seq<Context>, pages: seq<nat>, ts: seq<LayerTransfer>, g: Host,
                           h: Host) {
    && Paged(t) && Described(t) && |cs| > 0 && (forall i | 0 <= i < |cs| :: PageContext(t, cs[i]))
    && OneWholeShard(t, cs) && SameLayerSameLayout(cs)
    && cs[0].slot < |t.page.value.pageSizes|
    && |pages| == |cs[0].blocks| && FreshPages(pages, t.page.value.pageSizes[cs[0].slot], g, h)
    && CutFrom(t, cs, pages, ts)
  }

  lemma PieceOf(t: LayerTopology, cs: seq<Context>, pages: seq<nat>, ts: seq<LayerTransfer>, g: Host, h: Host, i: nat,
                j: nat)
    requires PagesCut(t, cs, pages, ts, g, h) && i < |cs| && j < |pages|
    ensures |ts| == |cs| && |ts[i].blocks| == |pages| && ts[i].layout == cs[i].layout && !cs[i].layout.seg.Split?
    ensures |cs[i].blocks| == |pages| && cs[i].blocks == cs[0].blocks && cs[i].slot == cs[0].slot
    ensures ts[i].blocks[j] == TransferBlock(cs[i].blocks[j].0, Owned(PagePiece(t.page.value, cs[i].layer, pages[j])))
  {
    assert MatchesOne(cs[i], ts[i]) && CutOne(t, cs[i], pages, ts[i]);
  }

  lemma PagesUsable(t: LayerTopology, cs: seq<Context>, pages: seq<nat>, ts: seq<LayerTransfer>, g: Host, h: Host)
    requires PagesCut(t, cs, pages, ts, g, h)
    ensures Usable(ts)
  {
    forall i | 0 <= i < |ts| ensures UsableLayer(ts[i]) {
      assert MatchesOne(cs[i], ts[i]);
      forall j | 0 <= j < |ts[i].blocks| ensures UsableBlock(ts[i].blocks[j]) { PieceOf(t, cs, pages, ts, g, h, i, j); }
    }
  }

  /** The pieces of a page do not overlap; a layer that is saved twice repeats its copies. */
  lemma PageFirstApart(t: LayerTopology, cs: seq<Context>, pages: seq<nat>, ts: seq<LayerTransfer>, g: Host, h: Host)
    requires PagesCut(t, cs, pages, ts, g, h)
    ensures Usable(ts) && ApartOnHosts(ts)
  {
    PagesUsable(t, cs, pages, ts, g, h);
    forall c, d | ValidCoord(ts, c) && ValidCoord(ts, d) && c != d
      ensures ApartOnHost(DescAt(ts, c), DescAt(ts, d)) || SameCopy(DescAt(ts, c), DescAt(ts, d))
    {
      PiecesApart(t, cs, pages, ts, g, h, c, d);
    }
  }

  lemma PieceDesc(t: LayerTopology, cs: seq<Context>, pages: seq<nat>, ts: seq<LayerTransfer>, g: Host, h: Host,
                  c: Coord)
    requires PagesCut(t, cs, pages, ts, g, h) && Usable(ts) && ValidCoord(ts, c)
    ensures c.layer < |cs| && c.block < |pages| && c.part == 0
    ensures var x := cs[c.layer]; var d := DescAt(ts, c); var p := t.page.value;
            && d.alloc == pages[c.block] && d.offset == p.offset[x.layer]
                && d.size == BlockBytes(x.layout) <= p.bytes[x.layer]
            && c.block < |cs[0].blocks| && d.device == PartRange(x.layout, cs[0].blocks[c.block].0, 0).addr
  {
    assert MatchesOne(cs[c.layer], ts[c.layer]);
    PieceOf(t, cs, pages, ts, g, h, c.layer, c.block);
    DescOnHost(ts, c);
    PaddedRoom(cs[c.layer].layout);
  }

  lemma PiecesApart(t: LayerTopology, cs: seq<Context>, pages: seq<nat>, ts: seq<LayerTransfer>, g: Host, h: Host,
                    c: Coord, d: Coord)
    requires PagesCut(t, cs, pages, ts, g, h) && Usable(ts) && ValidCoord(ts, c) && ValidCoord(ts, d) && c != d
    ensures ApartOnHost(DescAt(ts, c), DescAt(ts, d)) || SameCopy(DescAt(ts, c), DescAt(ts, d))
  {
    PieceDesc(t, cs, pages, ts, g, h, c);
    PieceDesc(t, cs, pages, ts, g, h, d);
    var p := t.page.value;
    var shards :| Describes(p, shards, p.bytes);
    var x, y := cs[c.layer].layer, cs[d.layer].layer;
    assert p.shard[x] == p.shard[y];
    if c.block == d.block {
      if x < y { LayersApart(p, shards, p.bytes, x, y); } else if y < x { LayersApart(p, shards, p.bytes, y, x); }
    }
  }
}
