/** One copy descriptor per device range of every block of a transfer, for either direction. */
module CopyDescs {
  import opened Common
  import opened Seqs
  import opened Layout
  import opened Blocks
  import opened Transfer

  /** Host side of one block: a save's own target, or a layer inside a slot of a sealed block. */
  datatype HostBlock = Owned(block: RawBlock) | Cached(sealed: SealedBlock, slot: nat, start: nat)

  datatype TransferBlock = TransferBlock(index: nat, host: HostBlock)

  datatype LayerTransfer = LayerTransfer(layout: KVCacheLayout, blocks: seq<TransferBlock>)

  predicate Present(h: HostBlock) { h.Cached? ==> h.slot < |h.sealed.slots| }

  function Raw(h: HostBlock): RawBlock
    requires Present(h)
  {
    match h
    case Owned(block) => block
    case Cached(sealed, slot, _) => sealed.slots[slot]
  }

  /** Where the layer begins in its host slot. */
  function StartOf(h: HostBlock): nat { if h.Cached? then h.start else 0 }

  /** Host position of range `part`; V follows K when the host block is one piece. */
  function HostPart(raw: RawBlock, start: nat, segmentBytes: nat, part: nat): (nat, nat)
    requires |raw.segments| > 0
  {
    if part == 0 then (raw.segments[0].alloc, raw.segments[0].offset + start)
    else if |raw.segments| > 1 then (raw.segments[1].alloc, raw.segments[1].offset + start)
    else (raw.segments[0].alloc, raw.segments[0].offset + start + segmentBytes)
  }

  // ------------------------------------------------------------ coordinates of a descriptor

  datatype Coord = Coord(layer: nat, block: nat, part: nat)

  predicate UsableBlock(b: TransferBlock) { Present(b.host) && |Raw(b.host).segments| > 0 }

  ghost predicate UsableLayer(layer: LayerTransfer) {
    forall j | 0 <= j < |layer.blocks| :: UsableBlock(layer.blocks[j])
  }

  ghost predicate Usable(layers: seq<LayerTransfer>) { forall i | 0 <= i < |layers| :: UsableLayer(layers[i]) }

  predicate ValidCoord(layers: seq<LayerTransfer>, c: Coord) {
    c.layer < |layers| && c.block < |layers[c.layer].blocks| && c.part < NumRanges(layers[c.layer].layout)
  }

  function DescAt(layers: seq<LayerTransfer>, c: Coord): CopyDesc
    requires Usable(layers) && ValidCoord(layers, c)
  {
    var layer := layers[c.layer];
    assert UsableLayer(layer);
    var b := layer.blocks[c.block];
    var range := PartRange(layer.layout, b.index, c.part);
    var (alloc, offset) := HostPart(Raw(b.host), StartOf(b.host), layer.layout.segmentBytes, c.part);
    CopyDesc(range.addr, alloc, offset, range.bytes, c.layer)
  }

  function BlockCoords(layers: seq<LayerTransfer>, i: nat, j: nat): seq<Coord>
    requires i < |layers|
  {
    if layers[i].layout.seg.Split? then [Coord(i, j, 0), Coord(i, j, 1)] else [Coord(i, j, 0)]
  }

  function LayerCoords(layers: seq<LayerTransfer>, i: nat, n: nat): seq<Coord>
    requires i < |layers| && n <= |layers[i].blocks|
  {
    if n == 0 then [] else LayerCoords(layers, i, n - 1) + BlockCoords(layers, i, n - 1)
  }

  function AllCoords(layers: seq<LayerTransfer>, n: nat): seq<Coord>
    requires n <= |layers|
  {
    if n == 0 then [] else AllCoords(layers, n - 1) + LayerCoords(layers, n - 1, |layers[n-1].blocks|)
  }

  lemma {:induction false} LayerCoordsExact(layers: seq<LayerTransfer>, i: nat, n: nat)
    requires i < |layers| && n <= |layers[i].blocks|
    ensures forall c :: c in LayerCoords(layers, i, n) <==> c.layer == i && c.block < n && ValidCoord(layers, c)
    ensures NoRepeats(LayerCoords(layers, i, n))
  {
    if n > 0 {
      LayerCoordsExact(layers, i, n - 1);
      var front, last := LayerCoords(layers, i, n - 1), BlockCoords(layers, i, n - 1);
      forall c ensures c in last <==> c.layer == i && c.block == n - 1 && ValidCoord(layers, c) {
        if c.layer == i && c.block == n - 1 && c.part < NumRanges(layers[i].layout) {
          assert c == Coord(i, n - 1, c.part);
        }
      }
      JoinDistinct(front, last);
    }
  }

  lemma JoinDistinct(a: seq<Coord>, b: seq<Coord>)
    requires NoRepeats(a) && NoRepeats(b) && forall c | c in a :: c !in b
    ensures NoRepeats(a + b)
  {
    forall i, j | 0 <= i < j < |a + b| ensures (a + b)[i] != (a + b)[j] {
      if i < |a| <= j { assert a[i] in a && b[j-|a|] in b; }
    }
  }

  /** Every range of every block has exactly one descriptor. */
  lemma {:induction false} CoordsExact(layers: seq<LayerTransfer>, n: nat)
    requires n <= |layers|
    ensures forall c :: c in AllCoords(layers, n) <==> c.layer < n && ValidCoord(layers, c)
    ensures NoRepeats(AllCoords(layers, n))
  {
    if n > 0 {
      CoordsExact(layers, n - 1);
      LayerCoordsExact(layers, n - 1, |layers[n-1].blocks|);
      JoinDistinct(AllCoords(layers, n - 1), LayerCoords(layers, n - 1, |layers[n-1].blocks|));
    }
  }

  ghost predicate IsDesc(layers: seq<LayerTransfer>, c: Coord, d: CopyDesc)
    requires Usable(layers)
  {
    ValidCoord(layers, c) && d == DescAt(layers, c)
  }

  /** `descs` are the descriptors of `coords`, one by one. */
  ghost predicate DescsFor(layers: seq<LayerTransfer>, coords: seq<Coord>, descs: seq<CopyDesc>)
    requires Usable(layers)
  {
    |descs| == |coords| && forall k | 0 <= k < |coords| :: IsDesc(layers, coords[k], descs[k])
  }

  lemma JoinDescs(layers: seq<LayerTransfer>, a: seq<Coord>, b: seq<Coord>, x: seq<CopyDesc>, y: seq<CopyDesc>)
    requires Usable(layers) && DescsFor(layers, a, x) && DescsFor(layers, b, y)
    ensures DescsFor(layers, a + b, x + y)
  {
  }

  ghost predicate InBlocks(layers: seq<LayerTransfer>) {
    FirstInBlocks(layers, |layers|)
  }

  ghost predicate FirstInBlocks(layers: seq<LayerTransfer>, n: nat)
    requires n <= |layers|
  {
    forall i | 0 <= i < n :: LayerInBlocks(layers[i], |layers[i].blocks|)
  }

  ghost function BlockPart(layers: seq<LayerTransfer>, i: nat, j: nat): seq<CopyDesc>
    requires Usable(layers) && i < |layers| && j < |layers[i].blocks|
  {
    if layers[i].layout.seg.Split? then [DescAt(layers, Coord(i, j, 0)), DescAt(layers, Coord(i, j, 1))]
    else [DescAt(layers, Coord(i, j, 0))]
  }

  ghost function LayerPrefix(layers: seq<LayerTransfer>, i: nat, n: nat): seq<CopyDesc>
    requires Usable(layers) && i < |layers| && n <= |layers[i].blocks|
  {
    if n == 0 then [] else LayerPrefix(layers, i, n - 1) + BlockPart(layers, i, n - 1)
  }

  ghost function DescsBefore(layers: seq<LayerTransfer>, n: nat): seq<CopyDesc>
    requires Usable(layers) && n <= |layers|
  {
    if n == 0 then [] else DescsBefore(layers, n - 1) + LayerPrefix(layers, n - 1, |layers[n-1].blocks|)
  }

  ghost function AllDescs(layers: seq<LayerTransfer>): seq<CopyDesc>
    requires Usable(layers)
  {
    DescsBefore(layers, |layers|)
  }

  lemma BlockPartIs(layers: seq<LayerTransfer>, i: nat, j: nat)
    requires Usable(layers) && i < |layers| && j < |layers[i].blocks|
    ensures DescsFor(layers, BlockCoords(layers, i, j), BlockPart(layers, i, j))
  {
  }

  lemma {:induction false} LayerPrefixIs(layers: seq<LayerTransfer>, i: nat, n: nat)
    requires Usable(layers) && i < |layers| && n <= |layers[i].blocks|
    ensures DescsFor(layers, LayerCoords(layers, i, n), LayerPrefix(layers, i, n))
  {
    if n > 0 {
      LayerPrefixIs(layers, i, n - 1);
      BlockPartIs(layers, i, n - 1);
      JoinDescs(layers, LayerCoords(layers, i, n - 1), BlockCoords(layers, i, n - 1), LayerPrefix(layers, i, n - 1),
                BlockPart(layers, i, n - 1));
    }
  }

  lemma {:induction false} DescsBeforeIs(layers: seq<LayerTransfer>, n: nat)
    requires Usable(layers) && n <= |layers|
    ensures DescsFor(layers, AllCoords(layers, n), DescsBefore(layers, n))
  {
    if n > 0 {
      var m := |layers[n-1].blocks|;
      DescsBeforeIs(layers, n - 1);
      LayerPrefixIs(layers, n - 1, m);
      JoinDescs(layers, AllCoords(layers, n - 1), LayerCoords(layers, n - 1, m), DescsBefore(layers, n - 1),
                LayerPrefix(layers, n - 1, m));
    }
  }

  /** The k-th descriptor is the one of the k-th coordinate. */
  lemma AllDescsAt(layers: seq<LayerTransfer>, k: nat)
    requires Usable(layers) && k < |AllCoords(layers, |layers|)|
    ensures |AllDescs(layers)| == |AllCoords(layers, |layers|)| && ValidCoord(layers, AllCoords(layers, |layers|)[k])
    ensures AllDescs(layers)[k] == DescAt(layers, AllCoords(layers, |layers|)[k])
  {
    DescsBeforeIs(layers, |layers|);
    assert IsDesc(layers, AllCoords(layers, |layers|)[k], AllDescs(layers)[k]);
  }

  lemma AllDescsLength(layers: seq<LayerTransfer>)
    requires Usable(layers)
    ensures |AllDescs(layers)| == |AllCoords(layers, |layers|)|
  {
    DescsBeforeIs(layers, |layers|);
  }

  // ------------------------------------------------------------ building the descriptors

  /** The descriptors of one block, K before V. */
  method BlockDescs(layers: seq<LayerTransfer>, i: nat, j: nat) returns (r: Option<seq<CopyDesc>>)
    requires Usable(layers) && i < |layers| && j < |layers[i].blocks|
    ensures r.Some? <==> layers[i].blocks[j].index < layers[i].layout.numBlocks
    ensures r.Some? ==> r.value == BlockPart(layers, i, j)
  {
    var layer, b := layers[i], layers[i].blocks[j];
    assert UsableLayer(layer) && UsableBlock(b);
    var copies := BlockCopiesOf(layer.layout, b.index);
    if copies.Err? { return None; }
    var raw, start := Raw(b.host), StartOf(b.host);
    var k := raw.segments[0];
    if copies.value.One? {
      var c := copies.value.c;
      r := Some([CopyDesc(c.addr, k.alloc, k.offset + start, c.bytes, i)]);
    } else {
      var kc, vc := copies.value.k, copies.value.v;
      var (valloc, voffset) := if |raw.segments| > 1 then (raw.segments[1].alloc, raw.segments[1].offset + start)
                               else (k.alloc, k.offset + start + kc.bytes);
      r := Some([CopyDesc(kc.addr, k.alloc, k.offset + start, kc.bytes, i),
                 CopyDesc(vc.addr, valloc, voffset, vc.bytes, i)]);
    }
  }

  ghost predicate LayerInBlocks(layer: LayerTransfer, n: nat)
    requires n <= |layer.blocks|
  {
    forall j | 0 <= j < n :: layer.blocks[j].index < layer.layout.numBlocks
  }

  method LayerDescs(layers: seq<LayerTransfer>, i: nat) returns (r: Option<seq<CopyDesc>>)
    requires Usable(layers) && i < |layers|
    ensures r.Some? <==> LayerInBlocks(layers[i], |layers[i].blocks|)
    ensures r.Some? ==> r.value == LayerPrefix(layers, i, |layers[i].blocks|)
  {
    var copies: seq<CopyDesc> := [];
    for j := 0 to |layers[i].blocks|
      invariant LayerInBlocks(layers[i], j) && copies == LayerPrefix(layers, i, j)
    {
      var block := BlockDescs(layers, i, j);
      BlocksFirst(layers[i], j);
      if block.None? { return None; }
      copies := copies + block.value;
    }
    r := Some(copies);
  }

  /** How far a layer's blocks are inside depends on them one by one. */
  lemma BlocksFirst(layer: LayerTransfer, j: nat)
    requires j < |layer.blocks|
    ensures LayerInBlocks(layer, j + 1) <==>
              LayerInBlocks(layer, j) && layer.blocks[j].index < layer.layout.numBlocks
    ensures LayerInBlocks(layer, |layer.blocks|) ==> LayerInBlocks(layer, j + 1)
  {
  }

  /** Fails exactly when some block index is outside its layout. */
  method BuildCopyDescs(layers: seq<LayerTransfer>) returns (r: Option<seq<CopyDesc>>)
    requires Usable(layers)
    ensures r.Some? <==> InBlocks(layers)
    ensures r.Some? ==> r.value == AllDescs(layers)
  {
    var copies: seq<CopyDesc> := [];
    for i := 0 to |layers|
      invariant FirstInBlocks(layers, i) && copies == DescsBefore(layers, i)
    {
      var layer := LayerDescs(layers, i);
      LayersFirst(layers, i);
      if layer.None? { return None; }
      copies := copies + layer.value;
    }
    r := Some(copies);
  }

  lemma LayersFirst(layers: seq<LayerTransfer>, i: nat)
    requires i < |layers|
    ensures FirstInBlocks(layers, i + 1) <==>
              FirstInBlocks(layers, i) && LayerInBlocks(layers[i], |layers[i].blocks|)
    ensures InBlocks(layers) ==> FirstInBlocks(layers, i + 1)
  {
  }

  // ------------------------------------------------------------ what a transfer moves

  function DevicePart(dev: Memory, l: KVCacheLayout, block: nat, part: nat): Memory
    requires PartRange(l, block, part).addr + PartRange(l, block, part).bytes <= |dev|
  {
    var r := PartRange(l, block, part);
    dev[r.addr..r.addr+r.bytes]
  }

  ghost predicate InsideDevice(l: KVCacheLayout, dev: Memory) { l.base + l.size <= |dev| }

  /** The bytes of one block on the device: K then V when they are apart. */
  function DeviceImage(dev: Memory, l: KVCacheLayout, block: nat): Memory
    requires Layout.Sound(l) && block < l.numBlocks && l.base + l.size <= |dev|
  {
    assert ValidPart(l, block, 0);
    if l.seg.Split? then assert ValidPart(l, block, 1); DevicePart(dev, l, block, 0) + DevicePart(dev, l, block, 1)
    else DevicePart(dev, l, block, 0)
  }

  function PartBytes(l: KVCacheLayout): nat { if l.seg.Split? then l.segmentBytes else BlockBytes(l) }

  /** The host block has room for every part, from `start` on. */
  predicate HasRoom(host: Host, l: KVCacheLayout, raw: RawBlock, start: nat) {
    && |raw.segments| > 0
    && forall p | 0 <= p < NumRanges(l) ::
         var (alloc, offset) := HostPart(raw, start, l.segmentBytes, p);
         alloc in host && offset + PartBytes(l) <= |host[alloc]|
  }

  function HostPartBytes(host: Host, l: KVCacheLayout, raw: RawBlock, start: nat, part: nat): Memory
    requires HasRoom(host, l, raw, start) && part < NumRanges(l)
  {
    var (alloc, offset) := HostPart(raw, start, l.segmentBytes, part);
    host[alloc][offset..offset+PartBytes(l)]
  }

  /** The bytes of one layer's block on the host. */
  function HostImage(host: Host, l: KVCacheLayout, raw: RawBlock, start: nat): Memory
    requires HasRoom(host, l, raw, start)
  {
    if l.seg.Split? then HostPartBytes(host, l, raw, start, 0) + HostPartBytes(host, l, raw, start, 1)
    else HostPartBytes(host, l, raw, start, 0)
  }

  /** The image of a device block, byte by byte: K from the block's address on, V from the K/V stride behind it. */
  lemma DeviceImageBytes(dev: Memory, l: KVCacheLayout, block: nat, i: nat)
    requires Layout.Sound(l) && block < l.numBlocks && l.base + l.size <= |dev| && i < l.segmentBytes * l.segments
    requires l.seg.Split? ==> l.segments == 2
    ensures |DeviceImage(dev, l, block)| == l.segmentBytes * l.segments
    ensures var at := l.base + block * l.stride
                + if l.seg.Split? && i >= l.segmentBytes then l.seg.kvStride + (i - l.segmentBytes) else i;
            at < |dev| && DeviceImage(dev, l, block)[i] == dev[at]
  {
    assert ValidPart(l, block, 0) && Inside(PartRange(l, block, 0), l);
    if l.seg.Split? { assert ValidPart(l, block, 1) && Inside(PartRange(l, block, 1), l); }
  }

  /**
   The image of a host block, byte by byte: from `start` on in its first segment, and V in the second segment or, when
   there is none, right behind K.
   */
  lemma HostImageBytes(host: Host, l: KVCacheLayout, raw: RawBlock, start: nat, i: nat)
    requires HasRoom(host, l, raw, start) && i < l.segmentBytes * l.segments && (l.seg.Split? ==> l.segments == 2)
    ensures |HostImage(host, l, raw, start)| == l.segmentBytes * l.segments
    ensures var (segment, at) :=
              if l.seg.Split? && i >= l.segmentBytes && |raw.segments| > 1 then (1, i - l.segmentBytes) else (0, i);
            && segment < |raw.segments| && raw.segments[segment].alloc in host
            && raw.segments[segment].offset + start + at < |host[raw.segments[segment].alloc]|
            && HostImage(host, l, raw, start)[i] ==
                 host[raw.segments[segment].alloc][raw.segments[segment].offset + start + at]
  {
  }

  /** The transfer stays inside the device and inside its host blocks. */
  ghost predicate Fitting(layers: seq<LayerTransfer>, dev: Memory, host: Host) {
    && Usable(layers) && InBlocks(layers)
    && forall i | 0 <= i < |layers| :: FittingLayer(layers[i], dev, host)
  }

  ghost predicate FittingLayer(layer: LayerTransfer, dev: Memory, host: Host) {
    && Layout.Sound(layer.layout) && InsideDevice(layer.layout, dev)
    && forall j | 0 <= j < |layer.blocks| :: FittingBlock(layer.layout, layer.blocks[j], host)
  }

  ghost predicate FittingBlock(l: KVCacheLayout, b: TransferBlock, host: Host) {
    UsableBlock(b) && b.index < l.numBlocks && HasRoom(host, l, Raw(b.host), StartOf(b.host))
  }

  lemma DescFits(layers: seq<LayerTransfer>, dev: Memory, host: Host, c: Coord)
    requires Fitting(layers, dev, host) && ValidCoord(layers, c)
    ensures Fits(DescAt(layers, c), dev, host)
  {
    var layer := layers[c.layer];
    assert FittingLayer(layer, dev, host) && FittingBlock(layer.layout, layer.blocks[c.block], host);
    var b := layer.blocks[c.block];
    assert ValidPart(layer.layout, b.index, c.part);
    assert Inside(PartRange(layer.layout, b.index, c.part), layer.layout);
  }

  lemma DescsFit(layers: seq<LayerTransfer>, dev: Memory, host: Host)
    requires Fitting(layers, dev, host)
    ensures AllFit(AllDescs(layers), dev, host)
  {
    var coords := AllCoords(layers, |layers|);
    AllDescsLength(layers);
    forall k | 0 <= k < |coords| ensures Fits(AllDescs(layers)[k], dev, host) {
      AllDescsAt(layers, k);
      DescFits(layers, dev, host, coords[k]);
    }
  }

  /** Where the descriptor of a coordinate is in the list. */
  lemma PlaceOf(layers: seq<LayerTransfer>, c: Coord) returns (k: nat)
    requires Usable(layers) && ValidCoord(layers, c)
    ensures k < |AllDescs(layers)| && AllDescs(layers)[k] == DescAt(layers, c)
  {
    var coords := AllCoords(layers, |layers|);
    CoordsExact(layers, |layers|);
    k :| 0 <= k < |coords| && coords[k] == c;
    AllDescsAt(layers, k);
  }

  /** Different ranges go to different host bytes, unless two layers repeat the same copy. */
  ghost predicate ApartOnHosts(layers: seq<LayerTransfer>)
    requires Usable(layers)
  {
    forall c, d | ValidCoord(layers, c) && ValidCoord(layers, d) && c != d ::
      ApartOnHost(DescAt(layers, c), DescAt(layers, d)) || SameCopy(DescAt(layers, c), DescAt(layers, d))
  }

  ghost predicate ApartOnDevices(layers: seq<LayerTransfer>)
    requires Usable(layers)
  {
    forall c, d | ValidCoord(layers, c) && ValidCoord(layers, d) && c != d ::
      ApartOnDevice(DescAt(layers, c), DescAt(layers, d))
  }

  lemma DescsApart(layers: seq<LayerTransfer>)
    requires Usable(layers)
    ensures ApartOnHosts(layers) ==> HostApart(AllDescs(layers))
    ensures ApartOnDevices(layers) ==> DeviceApart(AllDescs(layers))
  {
    var coords, descs := AllCoords(layers, |layers|), AllDescs(layers);
    CoordsExact(layers, |layers|);
    AllDescsLength(layers);
    forall a, b | 0 <= a < b < |descs|
      ensures ApartOnHosts(layers) ==> ApartOnHost(descs[a], descs[b]) || SameCopy(descs[a], descs[b])
      ensures ApartOnDevices(layers) ==> ApartOnDevice(descs[a], descs[b])
    {
      AllDescsAt(layers, a);
      AllDescsAt(layers, b);
      assert coords[a] != coords[b];
    }
  }

  /** Host and device hold the same bytes for one range. */
  ghost predicate PartSaved(layers: seq<LayerTransfer>, dev: Memory, host: Host, c: Coord)
    requires Usable(layers) && ValidCoord(layers, c)
  {
    var d := DescAt(layers, c);
    Fits(d, dev, host) && HostBytes(d, host) == DeviceBytes(d, dev)
  }

  ghost predicate SameImage(dev: Memory, host: Host, l: KVCacheLayout, b: TransferBlock)
    requires Layout.Sound(l) && InsideDevice(l, dev) && FittingBlock(l, b, host)
  {
    HostImage(host, l, Raw(b.host), StartOf(b.host)) == DeviceImage(dev, l, b.index)
  }

  lemma PartMeans(layers: seq<LayerTransfer>, dev: Memory, host: Host, c: Coord)
    requires Usable(layers) && ValidCoord(layers, c) && FittingLayer(layers[c.layer], dev, host)
             && PartSaved(layers, dev, host, c)
    ensures var (l, b) := (layers[c.layer].layout, layers[c.layer].blocks[c.block]);
            && FittingBlock(l, b, host) && ValidPart(l, b.index, c.part) && Inside(PartRange(l, b.index, c.part), l)
            && HostPartBytes(host, l, Raw(b.host), StartOf(b.host), c.part) == DevicePart(dev, l, b.index, c.part)
  {
    var (l, b) := (layers[c.layer].layout, layers[c.layer].blocks[c.block]);
    assert FittingBlock(l, b, host) && ValidPart(l, b.index, c.part);
  }

  lemma PartsMakeImage(layers: seq<LayerTransfer>, dev: Memory, host: Host, i: nat, j: nat)
    requires Usable(layers) && i < |layers| && j < |layers[i].blocks| && FittingLayer(layers[i], dev, host)
    requires forall p: nat | p < NumRanges(layers[i].layout) :: PartSaved(layers, dev, host, Coord(i, j, p))
    ensures FittingBlock(layers[i].layout, layers[i].blocks[j], host)
    ensures SameImage(dev, host, layers[i].layout, layers[i].blocks[j])
  {
    assert FittingBlock(layers[i].layout, layers[i].blocks[j], host);
    PartMeans(layers, dev, host, Coord(i, j, 0));
    if layers[i].layout.seg.Split? { PartMeans(layers, dev, host, Coord(i, j, 1)); }
  }

  /** A save puts the bytes of every block into its host block. */
  lemma SaveMoves(layers: seq<LayerTransfer>, dev: Memory, host: Host, i: nat, j: nat)
    requires Fitting(layers, dev, host) && ApartOnHosts(layers) && i < |layers| && j < |layers[i].blocks|
    ensures AllFit(AllDescs(layers), dev, host)
    ensures var h := ToHost(dev, host, AllDescs(layers));
            && FittingLayer(layers[i], dev, h) && FittingBlock(layers[i].layout, layers[i].blocks[j], h)
            && SameImage(dev, h, layers[i].layout, layers[i].blocks[j])
  {
    DescsFit(layers, dev, host);
    DescsApart(layers);
    var h := ToHost(dev, host, AllDescs(layers));
    RoomKept(layers[i], dev, host, h);
    forall p: nat | p < NumRanges(layers[i].layout) ensures PartSaved(layers, dev, h, Coord(i, j, p)) {
      var k := PlaceOf(layers, Coord(i, j, p));
      HostReceives(dev, host, AllDescs(layers), k);
    }
    PartsMakeImage(layers, dev, h, i, j);
  }

  lemma RoomKept(layer: LayerTransfer, dev: Memory, host: Host, h: Host)
    requires FittingLayer(layer, dev, host) && SameShape(h, host)
    ensures FittingLayer(layer, dev, h)
  {
    forall j | 0 <= j < |layer.blocks| ensures FittingBlock(layer.layout, layer.blocks[j], h) {
      assert FittingBlock(layer.layout, layer.blocks[j], host);
    }
  }

  /** A load puts the bytes of every host block into its device block. */
  lemma LoadMoves(layers: seq<LayerTransfer>, dev: Memory, host: Host, i: nat, j: nat)
    requires Fitting(layers, dev, host) && ApartOnDevices(layers) && i < |layers| && j < |layers[i].blocks|
    ensures AllFit(AllDescs(layers), dev, host)
    ensures var m := ToDevice(dev, host, AllDescs(layers));
            && FittingLayer(layers[i], m, host) && FittingBlock(layers[i].layout, layers[i].blocks[j], host)
            && SameImage(m, host, layers[i].layout, layers[i].blocks[j])
  {
    DescsFit(layers, dev, host);
    DescsApart(layers);
    var m := ToDevice(dev, host, AllDescs(layers));
    assert FittingLayer(layers[i], dev, host) && FittingLayer(layers[i], m, host);
    forall p: nat | p < NumRanges(layers[i].layout) ensures PartSaved(layers, m, host, Coord(i, j, p)) {
      var k := PlaceOf(layers, Coord(i, j, p));
      DeviceReceives(dev, host, AllDescs(layers), k);
    }
    PartsMakeImage(layers, m, host, i, j);
  }

  /** A load changes nothing but the ranges of its blocks. */
  lemma LoadLeaves(layers: seq<LayerTransfer>, dev: Memory, host: Host, x: nat)
    requires Fitting(layers, dev, host) && x < |dev|
    requires forall c | ValidCoord(layers, c) :: !InDevice(DescAt(layers, c), x)
    ensures AllFit(AllDescs(layers), dev, host) && ToDevice(dev, host, AllDescs(layers))[x] == dev[x]
  {
    DescsFit(layers, dev, host);
    var descs := AllDescs(layers);
    AllDescsLength(layers);
    forall k | 0 <= k < |descs| ensures !InDevice(descs[k], x) { AllDescsAt(layers, k); }
    DeviceKept(dev, host, descs, x);
  }

  /** A save changes nothing but the ranges of its host blocks. */
  lemma SaveLeaves(layers: seq<LayerTransfer>, dev: Memory, host: Host, alloc: nat, x: nat)
    requires Fitting(layers, dev, host) && alloc in host && x < |host[alloc]|
    requires forall c | ValidCoord(layers, c) :: !InHost(DescAt(layers, c), alloc, x)
    ensures AllFit(AllDescs(layers), dev, host) && ToHost(dev, host, AllDescs(layers))[alloc][x] == host[alloc][x]
  {
    DescsFit(layers, dev, host);
    var descs := AllDescs(layers);
    AllDescsLength(layers);
    forall k | 0 <= k < |descs| ensures !InHost(descs[k], alloc, x) { AllDescsAt(layers, k); }
    HostKept(dev, host, descs, alloc, x);
  }
}
