/** GPU addressing of one layer's KV cache blocks. */
module Layout {
  import opened Common

  datatype Segments = Contiguous | Split(kvStride: nat)

  /** All sizes in bytes; `stride` is the step between consecutive blocks. */
  datatype KVCacheLayout = KVCacheLayout(
    base: nat, size: nat, numBlocks: nat, stride: nat, segmentBytes: nat, segments: nat, padded: nat, seg: Segments)

  datatype LayoutError = Invalid | Overlap | Overflow | TooSmall

  /** One contiguous address range. */
  datatype Range = Range(addr: nat, bytes: nat)

  datatype BlockCopies = One(c: Range) | Two(k: Range, v: Range)

  function BlockBytes(l: KVCacheLayout): nat { l.segmentBytes * l.segments }

  /** What construction guarantees about a layout before its bounds are checked. */
  predicate WellFormed(l: KVCacheLayout) {
    && l.base > 0 && l.size > 0 && l.numBlocks > 0 && l.segmentBytes > 0 && l.segments > 0
    && l.base + l.size <= U64_MAX && l.numBlocks <= U64_MAX && l.stride <= U64_MAX
    && BlockBytes(l) <= U64_MAX
    && (l.seg.Split? ==> l.segments == 2 && l.segmentBytes < l.seg.kvStride <= U64_MAX)
  }

  function CheckedMul(a: nat, b: nat): Option<nat> { if a * b <= U64_MAX then Some(a * b) else None }

  function CheckedAdd(a: nat, b: nat): Option<nat> { if a + b <= U64_MAX then Some(a + b) else None }

  function AbsDiff(a: nat, b: nat): nat { if a >= b then a - b else b - a }

  /** One of the two block distances at which K and V can come close. */
  function CheckDistance(l: KVCacheLayout, kvStride: nat, distance: nat): Option<LayoutError>
    requires l.numBlocks > 0
  {
    if distance == 0 || distance > l.numBlocks - 1 then None
    else
      var bytes := CheckedMul(distance, l.stride);
      if bytes.None? then Some(Overflow)
      else if AbsDiff(kvStride, bytes.value) < l.segmentBytes then Some(Overlap)
      else None
  }

  function CheckSplitDisjoint(l: KVCacheLayout, kvStride: nat): Option<LayoutError>
    requires l.numBlocks > 0 && l.stride > 0
  {
    var nearest := kvStride / l.stride;
    var first := CheckDistance(l, kvStride, nearest);
    if first.Some? then first else CheckDistance(l, kvStride, Min(nearest + 1, U64_MAX))
  }

  /** End of the last byte any block addresses, relative to the base. */
  function CheckedEnd(l: KVCacheLayout): Option<nat>
    requires l.numBlocks > 0
  {
    var last := CheckedMul(l.numBlocks - 1, l.stride);
    if last.None? then None
    else
      match l.seg
      case Contiguous => CheckedAdd(last.value, BlockBytes(l))
      case Split(kvStride) =>
        var segmentEnd := CheckedAdd(last.value, l.segmentBytes);
        if segmentEnd.None? then None else CheckedAdd(kvStride, segmentEnd.value)
  }

  function CheckBounds(l: KVCacheLayout): Option<LayoutError>
    requires l.numBlocks > 0 && l.segmentBytes > 0
  {
    if l.stride < (if l.seg.Contiguous? then BlockBytes(l) else l.segmentBytes) then Some(Overlap)
    else
      var disjoint := if l.seg.Split? then CheckSplitDisjoint(l, l.seg.kvStride) else None;
      if disjoint.Some? then disjoint
      else
        var end := CheckedEnd(l);
        if end.None? then Some(Overflow) else if end.value > l.size then Some(TooSmall) else None
  }

  function NewLayout(base: U64, size: U64, numBlocks: U64, segmentBytes: U64, kvStride: U64, segments: U64)
    : Result<KVCacheLayout, LayoutError>
  {
    if base == 0 || size == 0 || segmentBytes == 0 || numBlocks == 0 || segments == 0 then Err(Invalid)
    else if base + size > U64_MAX || segmentBytes * segments > U64_MAX then Err(Overflow)
    else if segments > 1 && (kvStride == 0 || kvStride < segmentBytes) then Err(Invalid)
    else if segments > 1 && kvStride != segmentBytes && segments != 2 then Err(Invalid)
    else
      var split := segments > 1 && kvStride != segmentBytes;
      var l := KVCacheLayout(base, size, numBlocks, if split then segmentBytes else segmentBytes * segments,
                             segmentBytes, segments, segmentBytes, if split then Split(kvStride) else Contiguous);
      var e := CheckBounds(l);
      if e.Some? then Err(e.value) else Ok(l)
  }

  function WithBlockStride(l: KVCacheLayout, stride: U64): Result<KVCacheLayout, LayoutError>
    requires l.numBlocks > 0 && l.segmentBytes > 0
  {
    if stride < (if l.seg.Contiguous? then BlockBytes(l) else l.segmentBytes) then Err(Overlap)
    else
      var l' := l.(stride := stride);
      var e := CheckBounds(l');
      if e.Some? then Err(e.value) else Ok(l')
  }

  const SSD_ALIGNMENT: nat := 512

  /** Round `n` up to a multiple of `alignment`. */
  function NextMultiple(n: nat, alignment: nat): nat
    requires alignment > 0
  {
    if n % alignment == 0 then n else n - n % alignment + alignment
  }

  function WithSsdPadding(l: KVCacheLayout, alignment: nat): KVCacheLayout
    requires alignment > 0
  {
    l.(padded := NextMultiple(l.segmentBytes, alignment))
  }

  /** What a worker tells about one layer. */
  datatype CacheSpec = CacheSpec(
    base: U64, size: U64, numBlocks: U64, segmentBytes: U64, kvStride: U64, segments: U64, stride: Option<U64>)

  /** How a layer is registered: constructed, given its own stride, and padded when the engine has an SSD tier. */
  function RegisterLayout(c: CacheSpec, ssd: bool): Result<KVCacheLayout, LayoutError> {
    var made := NewLayout(c.base, c.size, c.numBlocks, c.segmentBytes, c.kvStride, c.segments);
    if made.Err? then made
    else
      var strided := if c.stride.Some? then WithBlockStride(made.value, c.stride.value) else made;
      if strided.Ok? && ssd then Ok(WithSsdPadding(strided.value, SSD_ALIGNMENT)) else strided
  }

  function BlockCopiesOf(l: KVCacheLayout, block: nat): Result<BlockCopies, LayoutError> {
    if block >= l.numBlocks then Err(Invalid)
    else
      var addr := l.base + block * l.stride;
      match l.seg
      case Contiguous => Ok(One(Range(addr, BlockBytes(l))))
      case Split(kvStride) => Ok(Two(Range(addr, l.segmentBytes), Range(addr + kvStride, l.segmentBytes)))
  }

  // ------------------------------------------------------------ what the check decides

  function NumRanges(l: KVCacheLayout): nat { if l.seg.Split? then 2 else 1 }

  /** Range `part` (0 for K, 1 for V) of block `block`. */
  function PartRange(l: KVCacheLayout, block: nat, part: nat): Range {
    match l.seg
    case Contiguous => Range(l.base + block * l.stride, BlockBytes(l))
    case Split(kvStride) => Range(l.base + block * l.stride + (if part == 0 then 0 else kvStride), l.segmentBytes)
  }

  predicate Disjoint(a: Range, b: Range) { a.addr + a.bytes <= b.addr || b.addr + b.bytes <= a.addr }

  predicate Inside(r: Range, l: KVCacheLayout) { l.base <= r.addr && r.addr + r.bytes <= l.base + l.size }

  predicate ValidPart(l: KVCacheLayout, block: nat, part: nat) { block < l.numBlocks && part < NumRanges(l) }

  /** No two ranges of any two blocks share a byte, and none leaves the region. */
  ghost predicate Sound(l: KVCacheLayout) {
    && (forall b: nat, p: nat | ValidPart(l, b, p) :: Inside(PartRange(l, b, p), l))
    && (forall b: nat, p: nat, c: nat, q: nat | ValidPart(l, b, p) && ValidPart(l, c, q) && (b, p) != (c, q) ::
          Disjoint(PartRange(l, b, p), PartRange(l, c, q)))
  }

  /** Steps of at least `gap` keep different multiples `gap` apart. */
  lemma StrideApart(stride: nat, gap: nat, b: nat, c: nat)
    requires gap <= stride && b < c
    ensures b * stride + gap <= c * stride
  {
    MulGap(stride, b, c);
  }

  /**
   K of block `b` and V of block `c` are `kv - (b - c) * stride` apart. The distance nearest to `kv`
   from below is checked, and so is the next: if both leave room, every other distance does.
   */
  lemma TwoDistancesSuffice(kv: nat, stride: nat, segment: nat, maxDistance: nat, d: nat)
    requires 0 < segment <= stride && segment < kv && 0 < d <= maxDistance
    requires var n := kv / stride; 0 < n <= maxDistance ==> AbsDiff(kv, n * stride) >= segment
    requires var n := kv / stride; n + 1 <= maxDistance ==> AbsDiff(kv, (n + 1) * stride) >= segment
    ensures AbsDiff(kv, d * stride) >= segment
  {
    var n := kv / stride;
    Between(kv, stride, n);
    if d < n {
      StrideApart(stride, segment, d, n);
    } else if d > n + 1 {
      StrideApart(stride, segment, n + 1, d);
    }
  }

  lemma Between(kv: nat, stride: nat, n: nat)
    requires stride > 0 && n == kv / stride
    ensures n * stride <= kv < (n + 1) * stride == n * stride + stride
  {
    assert kv == stride * n + kv % stride;
  }

  function Extent(l: KVCacheLayout): nat { if l.seg.Contiguous? then BlockBytes(l) else l.segmentBytes }

  /** The last block ends inside the region. */
  lemma AcceptedEnd(l: KVCacheLayout)
    requires WellFormed(l) && CheckBounds(l).None?
    ensures (l.numBlocks - 1) * l.stride + (if l.seg.Split? then l.seg.kvStride else 0) + Extent(l) <= l.size
  {
  }

  lemma AcceptedInside(l: KVCacheLayout, b: nat, p: nat)
    requires WellFormed(l) && CheckBounds(l).None? && ValidPart(l, b, p)
    ensures Inside(PartRange(l, b, p), l)
  {
    AcceptedEnd(l);
    InsideBefore(l, b, p);
  }

  lemma InsideBefore(l: KVCacheLayout, b: nat, p: nat)
    requires ValidPart(l, b, p)
    requires (l.numBlocks - 1) * l.stride + (if l.seg.Split? then l.seg.kvStride else 0) + Extent(l) <= l.size
    ensures Inside(PartRange(l, b, p), l)
  {
    MulOrder(l.stride, b, l.numBlocks - 1);
  }

  lemma KVDisjoint(l: KVCacheLayout, b: nat, c: nat)
    requires WellFormed(l) && CheckBounds(l).None? && l.seg.Split?
    requires b < l.numBlocks && c < l.numBlocks
    ensures Disjoint(PartRange(l, b, 0), PartRange(l, c, 1))
  {
    var kv := l.seg.kvStride;
    if b < c {
      StrideApart(l.stride, l.segmentBytes, b, c);
    } else if c < b {
      TwoDistancesSuffice(kv, l.stride, l.segmentBytes, l.numBlocks - 1, b - c);
      assert b * l.stride == c * l.stride + (b - c) * l.stride;
    }
  }

  lemma AcceptedDisjoint(l: KVCacheLayout, b: nat, p: nat, c: nat, q: nat)
    requires WellFormed(l) && CheckBounds(l).None?
    requires ValidPart(l, b, p) && ValidPart(l, c, q) && (b, p) != (c, q)
    ensures Disjoint(PartRange(l, b, p), PartRange(l, c, q))
  {
    if p == q {
      if b < c { StrideApart(l.stride, Extent(l), b, c); } else { StrideApart(l.stride, Extent(l), c, b); }
    } else if p == 0 {
      KVDisjoint(l, b, c);
    } else {
      KVDisjoint(l, c, b);
    }
  }

  lemma SoundStride(l: KVCacheLayout)
    requires WellFormed(l) && Sound(l) && l.numBlocks >= 2
    ensures l.stride >= Extent(l)
  {
    assert ValidPart(l, 0, 0) && ValidPart(l, 1, 0);
    assert Disjoint(PartRange(l, 0, 0), PartRange(l, 1, 0));
  }

  lemma SoundDistance(l: KVCacheLayout, d: nat)
    requires WellFormed(l) && Sound(l) && l.seg.Split?
    ensures CheckDistance(l, l.seg.kvStride, d).None?
  {
    if 0 < d < l.numBlocks {
      assert ValidPart(l, d, 0) && ValidPart(l, 0, 1);
      assert Inside(PartRange(l, d, 0), l);
      assert Disjoint(PartRange(l, d, 0), PartRange(l, 0, 1));
    }
  }

  lemma SoundEnd(l: KVCacheLayout)
    requires WellFormed(l) && Sound(l)
    ensures CheckedEnd(l).Some? && CheckedEnd(l).value <= l.size
  {
    assert ValidPart(l, l.numBlocks - 1, NumRanges(l) - 1);
    assert Inside(PartRange(l, l.numBlocks - 1, NumRanges(l) - 1), l);
  }

  /**
   The check accepts a layout exactly when no two block ranges overlap and none leaves the region;
   only a single-block layout is held to a stride it never uses.
   */
  lemma CheckBoundsExact(l: KVCacheLayout)
    requires WellFormed(l)
    ensures CheckBounds(l).None? <==> Sound(l) && (l.numBlocks >= 2 || l.stride >= Extent(l))
  {
    if CheckBounds(l).None? {
      forall b: nat, p: nat | ValidPart(l, b, p) ensures Inside(PartRange(l, b, p), l) {
        AcceptedInside(l, b, p);
      }
      forall b: nat, p: nat, c: nat, q: nat | ValidPart(l, b, p) && ValidPart(l, c, q) && (b, p) != (c, q)
        ensures Disjoint(PartRange(l, b, p), PartRange(l, c, q))
      {
        AcceptedDisjoint(l, b, p, c, q);
      }
    } else if Sound(l) && (l.numBlocks >= 2 || l.stride >= Extent(l)) {
      if l.numBlocks >= 2 { SoundStride(l); }
      if l.seg.Split? {
        SoundDistance(l, l.seg.kvStride / l.stride);
        SoundDistance(l, Min(l.seg.kvStride / l.stride + 1, U64_MAX));
      }
      SoundEnd(l);
    }
  }

  /** A lone block with a stride below its size is refused although nothing overlaps. */
  lemma SingleBlockRefused()
    ensures exists l :: WellFormed(l) && Sound(l) && CheckBounds(l).Some?
  {
    var l := KVCacheLayout(1, 8, 1, 0, 8, 1, 8, Contiguous);
    assert WellFormed(l) && CheckBounds(l).Some?;
    forall b: nat, p: nat | ValidPart(l, b, p) ensures PartRange(l, b, p) == Range(1, 8) {}
  }

  /** Every layout a caller can hold is well formed and passed the check. */
  lemma ConstructedSound(base: U64, size: U64, numBlocks: U64, segmentBytes: U64, kvStride: U64, segments: U64)
    ensures var r := NewLayout(base, size, numBlocks, segmentBytes, kvStride, segments);
            r.Ok? ==> WellFormed(r.value) && Sound(r.value) && r.value.stride >= Extent(r.value)
  {
    var r := NewLayout(base, size, numBlocks, segmentBytes, kvStride, segments);
    if r.Ok? { CheckBoundsExact(r.value); }
  }

  lemma RestridedSound(l: KVCacheLayout, stride: U64)
    requires WellFormed(l)
    ensures var r := WithBlockStride(l, stride);
            r.Ok? ==> WellFormed(r.value) && Sound(r.value) && r.value.stride >= Extent(r.value)
  {
    var r := WithBlockStride(l, stride);
    if r.Ok? { CheckBoundsExact(r.value); }
  }

  /** The ranges handed to the copy engine are the block's ranges, and no address computation overflows. */
  lemma CopiesInBounds(l: KVCacheLayout, block: nat)
    requires WellFormed(l) && Sound(l)
    ensures BlockCopiesOf(l, block).Ok? <==> block < l.numBlocks
    ensures BlockCopiesOf(l, block).Ok? ==>
              match BlockCopiesOf(l, block).value
              case One(c) => l.seg.Contiguous? && c == PartRange(l, block, 0) && c.addr + c.bytes <= U64_MAX
              case Two(k, v) => l.seg.Split? && k == PartRange(l, block, 0) && v == PartRange(l, block, 1)
                                && k.addr + k.bytes <= U64_MAX && v.addr + v.bytes <= U64_MAX
  {
    if block < l.numBlocks {
      assert ValidPart(l, block, 0);
      assert l.seg.Split? ==> ValidPart(l, block, 1);
    }
  }

  /** Blocks start at the base, one stride apart; V lies the K/V stride behind K. */
  lemma RangesStep(l: KVCacheLayout, block: nat, part: nat)
    requires part < NumRanges(l)
    ensures PartRange(l, 0, 0).addr == l.base
    ensures PartRange(l, block + 1, part).addr == PartRange(l, block, part).addr + l.stride
    ensures l.seg.Split? ==> PartRange(l, block, 1).addr == PartRange(l, block, 0).addr + l.seg.kvStride
    ensures PartRange(l, block, part).bytes == if l.seg.Split? then l.segmentBytes else l.segmentBytes * l.segments
  {
  }

  /** The layout a caller asks for: K and V apart, or all segments of a block in one piece. */
  ghost function Requested(base: U64, size: U64, numBlocks: U64, segmentBytes: U64, kvStride: U64,
                           segments: U64): KVCacheLayout {
    if segments > 1 && kvStride != segmentBytes then
      KVCacheLayout(base, size, numBlocks, segmentBytes, segmentBytes, segments, segmentBytes, Split(kvStride))
    else KVCacheLayout(base, size, numBlocks, segmentBytes * segments, segmentBytes, segments, segmentBytes, Contiguous)
  }

  /** Which layouts the constructor returns. */
  lemma ConstructedExactly(base: U64, size: U64, numBlocks: U64, segmentBytes: U64, kvStride: U64, segments: U64)
    ensures var r, l := NewLayout(base, size, numBlocks, segmentBytes, kvStride, segments),
                Requested(base, size, numBlocks, segmentBytes, kvStride, segments);
            && (r.Ok? ==> r.value == l)
            && (r.Ok? <==>
                && base > 0 && size > 0 && numBlocks > 0 && segmentBytes > 0 && segments > 0
                && base + size <= U64_MAX && segmentBytes * segments <= U64_MAX
                && (segments > 1 ==> kvStride >= segmentBytes) && (l.seg.Split? ==> segments == 2) && Sound(l))
  {
    var l := Requested(base, size, numBlocks, segmentBytes, kvStride, segments);
    if WellFormed(l) { CheckBoundsExact(l); }
  }

  /** Which strides replace that of a layout. */
  lemma RestridedExactly(l: KVCacheLayout, stride: U64)
    requires WellFormed(l)
    ensures WithBlockStride(l, stride).Ok? <==>
              stride >= (if l.seg.Split? then l.segmentBytes else l.segmentBytes * l.segments)
              && Sound(l.(stride := stride))
    ensures WithBlockStride(l, stride).Ok? ==> WithBlockStride(l, stride).value == l.(stride := stride)
  {
    CheckBoundsExact(l.(stride := stride));
  }

  lemma PaddingCovers(l: KVCacheLayout, alignment: nat)
    requires alignment > 0
    ensures var l' := WithSsdPadding(l, alignment);
            l'.padded >= l.segmentBytes && l'.padded % alignment == 0 && l'.padded < l.segmentBytes + alignment
  {
    var n := l.segmentBytes;
    assert n == alignment * (n / alignment) + n % alignment;
    if n % alignment != 0 {
      DivModUnique(alignment, n / alignment + 1, 0);
      assert alignment * (n / alignment + 1) == alignment * (n / alignment) + alignment;
    }
  }

  /** The layout came out of registration, on an engine with or without an SSD tier. */
  ghost predicate RegisteredLayout(l: KVCacheLayout, ssd: bool) { exists c :: RegisterLayout(c, ssd) == Ok(l) }

  /** A registered layout is sound, and its padding depends on nothing but the segment size and the SSD tier. */
  lemma RegisteredSound(l: KVCacheLayout, ssd: bool)
    requires RegisteredLayout(l, ssd)
    ensures WellFormed(l) && Sound(l) && l.padded >= l.segmentBytes
    ensures l.padded == if ssd then NextMultiple(l.segmentBytes, SSD_ALIGNMENT) else l.segmentBytes
    ensures ssd ==> l.padded % 512 == 0 && l.padded < l.segmentBytes + 512
  {
    PaddingCovers(l, SSD_ALIGNMENT);
    var c :| RegisterLayout(c, ssd) == Ok(l);
    SpecSound(c, ssd);
  }

  lemma SpecSound(c: CacheSpec, ssd: bool)
    ensures var r := RegisterLayout(c, ssd);
            r.Ok? ==>
              && WellFormed(r.value) && Sound(r.value) && r.value.padded >= r.value.segmentBytes
              && r.value.padded == if ssd then NextMultiple(r.value.segmentBytes, SSD_ALIGNMENT)
                  else r.value.segmentBytes
  {
    var made := NewLayout(c.base, c.size, c.numBlocks, c.segmentBytes, c.kvStride, c.segments);
    if made.Ok? {
      ConstructedSound(c.base, c.size, c.numBlocks, c.segmentBytes, c.kvStride, c.segments);
      if c.stride.Some? { RestridedSound(made.value, c.stride.value); }
      var strided := if c.stride.Some? then WithBlockStride(made.value, c.stride.value) else made;
      if strided.Ok? && ssd {
        PaddingCovers(strided.value, SSD_ALIGNMENT);
        PaddingKeepsRanges(strided.value, SSD_ALIGNMENT);
      }
    }
  }

  lemma PaddingKeepsRanges(l: KVCacheLayout, alignment: nat)
    requires alignment > 0 && WellFormed(l) && Sound(l)
    ensures WellFormed(WithSsdPadding(l, alignment)) && Sound(WithSsdPadding(l, alignment))
  {
    var m := WithSsdPadding(l, alignment);
    assert forall b: nat, p: nat ::
             ValidPart(m, b, p) == ValidPart(l, b, p) && PartRange(m, b, p) == PartRange(l, b, p);
  }
}
