/** Blocks on the host: written slot by slot, then sealed for reading. */
module Blocks {
  import opened Common
  import opened Seqs

  /** A range of one pinned allocation. */
  datatype Segment = Segment(alloc: nat, offset: nat, size: nat)

  datatype RawBlock = RawBlock(segments: seq<Segment>)

  type NumaNode = nat

  const UNKNOWN_NUMA: NumaNode := 0xFFFF_FFFF

  const U64_RANGE: nat := U64_MAX + 1

  function Size(b: RawBlock): nat { SegmentSum(b.segments) }

  function SegmentSum(segments: seq<Segment>): nat {
    if segments == [] then 0 else SegmentSum(segments[..|segments|-1]) + segments[|segments|-1].size
  }

  datatype SealedBlock = SealedBlock(slots: seq<RawBlock>, footprint: U64, numas: seq<NumaNode>)

  datatype SlotInsert = Inserted(completed: bool, added: nat) | Duplicate

  // ------------------------------------------------------------ a block that is still being written

  datatype Inflight = Inflight(slots: seq<Option<RawBlock>>, remaining: nat, footprint: U64, numas: seq<NumaNode>)

  function Empty(): Option<RawBlock> -> bool { (slot: Option<RawBlock>) => slot.None? }

  function SizeOf(slot: Option<RawBlock>): nat { if slot.Some? then Size(slot.value) else 0 }

  function FilledSize(slots: seq<Option<RawBlock>>): nat {
    if slots == [] then 0 else FilledSize(slots[..|slots|-1]) + SizeOf(slots[|slots|-1])
  }

  /** `remaining` counts the empty slots and `footprint` adds up the filled ones, modulo the width of its type. */
  ghost predicate Sound(f: Inflight) {
    && |f.numas| == |f.slots|
    && f.remaining == CountIf(f.slots, Empty())
    && f.footprint == FilledSize(f.slots) % U64_RANGE
  }

  function NewInflight(total: nat): Inflight {
    Inflight(seq(total, _ => None), total, 0, seq(total, _ => UNKNOWN_NUMA))
  }

  function InsertSlot(f: Inflight, slot: nat, block: RawBlock, numa: NumaNode): Inflight
    requires Sound(f) && slot < |f.slots|
  {
    if f.slots[slot].Some? then f
    else
      CountEmpty(f.slots, slot);
      Inflight(f.slots[slot := Some(block)], f.remaining - 1, (f.footprint + Size(block)) % U64_RANGE,
               f.numas[slot := numa])
  }

  lemma CountEmpty(slots: seq<Option<RawBlock>>, slot: nat)
    requires slot < |slots| && slots[slot].None?
    ensures CountIf(slots, Empty()) > 0
  {
    assert slots[slot] in slots;
    CountPositive(slots, Empty());
  }

  lemma {:induction false} FilledUpdate(slots: seq<Option<RawBlock>>, slot: nat, v: Option<RawBlock>)
    requires slot < |slots|
    ensures FilledSize(slots[slot := v]) == FilledSize(slots) - SizeOf(slots[slot]) + SizeOf(v)
  {
    var after := slots[slot := v];
    if slot == |slots| - 1 {
      assert after[..|after|-1] == slots[..|slots|-1];
    } else {
      FilledUpdate(slots[..|slots|-1], slot, v);
      assert after[..|after|-1] == slots[..|slots|-1][slot := v];
    }
  }

  lemma {:induction false} NothingFilled(slots: seq<Option<RawBlock>>)
    requires forall i | 0 <= i < |slots| :: slots[i].None?
    ensures FilledSize(slots) == 0 && CountIf(slots, Empty()) == |slots|
  {
    if slots != [] {
      NothingFilled(slots[..|slots|-1]);
      assert slots == slots[..|slots|-1] + [slots[|slots|-1]];
      CountAppend(slots[..|slots|-1], [slots[|slots|-1]], Empty());
      CountOne(slots[|slots|-1], Empty());
    }
  }

  lemma NewSound(total: nat)
    ensures Sound(NewInflight(total))
  {
    NothingFilled(NewInflight(total).slots);
  }

  lemma WrapAdd(a: nat, b: nat)
    ensures (a % U64_RANGE + b) % U64_RANGE == (a + b) % U64_RANGE
  {
    var q := a / U64_RANGE;
    var r := a % U64_RANGE + b;
    assert a + b == U64_RANGE * q + r;
    var s := r / U64_RANGE;
    assert a + b == U64_RANGE * (q + s) + r % U64_RANGE;
    DivModUnique(U64_RANGE, q + s, r % U64_RANGE);
  }

  lemma InsertSound(f: Inflight, slot: nat, block: RawBlock, numa: NumaNode)
    requires Sound(f) && slot < |f.slots|
    ensures Sound(InsertSlot(f, slot, block, numa))
  {
    if f.slots[slot].None? {
      FilledUpdate(f.slots, slot, Some(block));
      CountUpdate(f.slots, slot, Some(block), Empty());
      CountOne(f.slots[slot], Empty());
      CountOne(Some(block), Empty());
      WrapAdd(FilledSize(f.slots), Size(block));
    }
  }

  class InflightBlock {
    var slots: seq<Option<RawBlock>>
    var remaining: nat
    var footprint: U64
    var numas: seq<NumaNode>

    ghost function View(): Inflight
      reads this
    {
      Inflight(slots, remaining, footprint, numas)
    }

    constructor (total: nat)
      ensures View() == NewInflight(total) && Sound(View())
    {
      slots, remaining, footprint, numas := seq(total, _ => None), total, 0, seq(total, _ => UNKNOWN_NUMA);
      new;
      NewSound(total);
    }

    /** The first write of a slot wins; the last slot to be filled reports completion. */
    method Insert(slot: nat, block: RawBlock, numa: NumaNode) returns (r: SlotInsert)
      requires Sound(View()) && slot < |slots|
      modifies this
      ensures Sound(View()) && View() == InsertSlot(old(View()), slot, block, numa)
      ensures r == Duplicate <==> old(slots)[slot].Some?
      ensures r.Inserted? ==> r.added == Size(block) && (r.completed <==> forall i | 0 <= i < |slots| :: slots[i].Some?)
    {
      InsertSound(View(), slot, block, numa);
      if slots[slot].Some? { return Duplicate; }
      CountEmpty(slots, slot);
      footprint := (footprint + Size(block)) % U64_RANGE;
      slots, numas := slots[slot := Some(block)], numas[slot := numa];
      remaining := remaining - 1;
      FullExactly(View());
      r := Inserted(remaining == 0, Size(block));
    }

    method Seal() returns (b: SealedBlock)
      requires Sound(View()) && remaining == 0
      ensures b.footprint == footprint && b.numas == numas && |b.slots| == |slots|
      ensures forall i | 0 <= i < |slots| :: Some(b.slots[i]) == slots[i]
    {
      FullExactly(View());
      var blocks := [];
      for i := 0 to |slots|
        invariant |blocks| == i && forall j | 0 <= j < i :: Some(blocks[j]) == slots[j]
      {
        blocks := blocks + [slots[i].value];
      }
      b := SealedBlock(blocks, footprint, numas);
    }
  }

  predicate Full(f: Inflight) { forall i | 0 <= i < |f.slots| :: f.slots[i].Some? }

  lemma FullExactly(f: Inflight)
    requires Sound(f)
    ensures f.remaining == 0 <==> Full(f)
  {
    CountPositive(f.slots, Empty());
    if f.remaining == 0 {
      forall i | 0 <= i < |f.slots| ensures f.slots[i].Some? { assert f.slots[i] in f.slots; }
    }
  }

  // ------------------------------------------------------------ filling in any order against the ordered fast path

  type SlotWrite = (nat, RawBlock)

  ghost predicate InRange(writes: seq<SlotWrite>, total: nat) { forall i | 0 <= i < |writes| :: writes[i].0 < total }

  /** All writes in order, on a sound block. */
  function Fill(f: Inflight, writes: seq<SlotWrite>, numa: NumaNode): (g: Inflight)
    requires Sound(f) && InRange(writes, |f.slots|)
    ensures Sound(g) && |g.slots| == |f.slots|
  {
    if writes == [] then f
    else
      var front := Fill(f, writes[..|writes|-1], numa);
      var w := writes[|writes|-1];
      InsertSound(front, w.0, w.1, numa);
      InsertSlot(front, w.0, w.1, numa)
  }

  /** The earliest write of a slot. */
  function FirstWrite(writes: seq<SlotWrite>, slot: nat): Option<RawBlock> {
    if writes == [] then None
    else
      var earlier := FirstWrite(writes[..|writes|-1], slot);
      if earlier.Some? then earlier else if writes[|writes|-1].0 == slot then Some(writes[|writes|-1].1) else None
  }

  /** The write at position `i` is the first of its slot. */
  ghost predicate FirstAt(writes: seq<SlotWrite>, slot: nat, i: nat, block: RawBlock) {
    i < |writes| && writes[i] == (slot, block) && forall j | 0 <= j < i :: writes[j].0 != slot
  }

  lemma {:induction false} FirstWriteExactly(writes: seq<SlotWrite>, slot: nat, block: RawBlock)
    ensures FirstWrite(writes, slot) == Some(block) <==> exists i :: FirstAt(writes, slot, i, block)
    ensures FirstWrite(writes, slot).None? <==> forall i | 0 <= i < |writes| :: writes[i].0 != slot
  {
    if writes != [] {
      var n := |writes| - 1;
      FirstWriteExactly(writes[..n], slot, block);
      if FirstWrite(writes[..n], slot) == Some(block) {
        var i :| FirstAt(writes[..n], slot, i, block);
        assert FirstAt(writes, slot, i, block);
      } else if FirstWrite(writes, slot) == Some(block) {
        assert FirstAt(writes, slot, n, block);
      } else if i: nat :| FirstAt(writes, slot, i, block) {
        assert i < n ==> FirstAt(writes[..n], slot, i, block);
      }
    }
  }

  /** The size of a block is that of its segments, and the size of several blocks theirs. */
  lemma {:induction false} SizeAdds(a: seq<Segment>, b: seq<Segment>)
    ensures Size(RawBlock(a + b)) == Size(RawBlock(a)) + Size(RawBlock(b))
  {
    if b == [] {
      assert a + b == a;
    } else {
      SizeAdds(a, b[..|b|-1]);
      assert (a + b)[..|a + b|-1] == a + b[..|b|-1];
    }
  }

  /** Blocks are added up one by one. */
  lemma TotalAdds(blocks: seq<RawBlock>, b: RawBlock)
    ensures TotalSize([]) == 0 && TotalSize(blocks + [b]) == TotalSize(blocks) + Size(b)
  {
    assert (blocks + [b])[..|blocks|] == blocks;
  }

  lemma {:induction false} FirstWriteWins(f: Inflight, writes: seq<SlotWrite>, numa: NumaNode, slot: nat)
    requires Sound(f) && InRange(writes, |f.slots|) && slot < |f.slots|
    ensures var g := Fill(f, writes, numa);
            && g.slots[slot] == (if f.slots[slot].Some? then f.slots[slot] else FirstWrite(writes, slot))
            && g.numas[slot] == (if f.slots[slot].None? && FirstWrite(writes, slot).Some? then numa else f.numas[slot])
  {
    if writes != [] { FirstWriteWins(f, writes[..|writes|-1], numa, slot); }
  }

  function SaturatingSum(blocks: seq<RawBlock>): U64 {
    if blocks == [] then 0 else Min(U64_MAX, SaturatingSum(blocks[..|blocks|-1]) + Size(blocks[|blocks|-1]))
  }

  function TotalSize(blocks: seq<RawBlock>): nat {
    if blocks == [] then 0 else TotalSize(blocks[..|blocks|-1]) + Size(blocks[|blocks|-1])
  }

  lemma {:induction false} Saturates(blocks: seq<RawBlock>)
    ensures SaturatingSum(blocks) == Min(U64_MAX, TotalSize(blocks))
  {
    if blocks != [] { Saturates(blocks[..|blocks|-1]); }
  }

  predicate InOrder(writes: seq<SlotWrite>, total: nat) {
    |writes| == total && forall i | 0 <= i < |writes| :: writes[i].0 == i
  }

  /** Seals at once a batch that carries every slot in slot order, and nothing else. */
  method FromOrdered(writes: seq<SlotWrite>, total: nat, numa: NumaNode) returns (r: Option<SealedBlock>)
    ensures r.Some? <==> InOrder(writes, total)
    ensures r.Some? ==> r.value == Ordered(writes, numa)
  {
    if |writes| != total || exists i | 0 <= i < |writes| :: writes[i].0 != i { return None; }
    var footprint: U64 := 0;
    var blocks: seq<RawBlock> := [];
    for i := 0 to |writes|
      invariant blocks == BlocksOf(writes[..i]) && footprint == SaturatingSum(blocks)
    {
      assert writes[..i+1][..i] == writes[..i];
      footprint := Min(U64_MAX, footprint + Size(writes[i].1));
      blocks := blocks + [writes[i].1];
      assert blocks[..|blocks|-1] == BlocksOf(writes[..i]);
    }
    assert writes[..|writes|] == writes;
    r := Some(SealedBlock(blocks, footprint, seq(total, _ => numa)));
  }

  function BlocksOf(writes: seq<SlotWrite>): (blocks: seq<RawBlock>)
    ensures |blocks| == |writes| && forall i | 0 <= i < |writes| :: blocks[i] == writes[i].1
  {
    if writes == [] then [] else BlocksOf(writes[..|writes|-1]) + [writes[|writes|-1].1]
  }

  function Ordered(writes: seq<SlotWrite>, numa: NumaNode): SealedBlock {
    SealedBlock(BlocksOf(writes), SaturatingSum(BlocksOf(writes)), seq(|writes|, _ => numa))
  }

  /** What sealing a full block gives. */
  function Sealed(f: Inflight): SealedBlock
    requires Full(f)
  {
    SealedBlock(seq(|f.slots|, i requires 0 <= i < |f.slots| => f.slots[i].value), f.footprint, f.numas)
  }

  lemma {:induction false} FilledTotal(slots: seq<Option<RawBlock>>, blocks: seq<RawBlock>)
    requires |slots| == |blocks| && forall i | 0 <= i < |slots| :: slots[i] == Some(blocks[i])
    ensures FilledSize(slots) == TotalSize(blocks)
  {
    if slots != [] { FilledTotal(slots[..|slots|-1], blocks[..|blocks|-1]); }
  }

  /** The two footprints agree exactly when the sum fits, or wraps to the value it saturates at. */
  ghost predicate SumAgrees(total: nat) { total <= U64_MAX || total % U64_RANGE == U64_MAX }

  /** The slot writes of one save, which come from one NUMA node. */
  type WriteBatch = (seq<SlotWrite>, NumaNode)

  ghost predicate BatchesInRange(batches: seq<WriteBatch>, total: nat) {
    forall i | 0 <= i < |batches| :: InRange(batches[i].0, total)
  }

  /** All batches in order, on a sound block. */
  ghost function FillBatches(f: Inflight, batches: seq<WriteBatch>): (g: Inflight)
    requires Sound(f) && BatchesInRange(batches, |f.slots|)
    ensures Sound(g) && |g.slots| == |f.slots|
  {
    if batches == [] then f
    else Fill(FillBatches(f, batches[..|batches|-1]), batches[|batches|-1].0, batches[|batches|-1].1)
  }

  /** The earliest write of a slot, and the node it came from. */
  ghost function FirstOf(batches: seq<WriteBatch>, slot: nat): Option<(RawBlock, NumaNode)> {
    if batches == [] then None
    else
      var earlier := FirstOf(batches[..|batches|-1], slot);
      var here := FirstWrite(batches[|batches|-1].0, slot);
      if earlier.Some? then earlier else if here.Some? then Some((here.value, batches[|batches|-1].1)) else None
  }

  lemma {:induction false} FirstBatchWins(f: Inflight, batches: seq<WriteBatch>, slot: nat)
    requires Sound(f) && BatchesInRange(batches, |f.slots|) && slot < |f.slots| && f.slots[slot].None?
    ensures var g, first := FillBatches(f, batches), FirstOf(batches, slot);
            && g.slots[slot] == (if first.Some? then Some(first.value.0) else None)
            && g.numas[slot] == (if first.Some? then first.value.1 else f.numas[slot])
  {
    if batches != [] {
      var front := batches[..|batches|-1];
      FirstBatchWins(f, front, slot);
      FirstWriteWins(FillBatches(f, front), batches[|batches|-1].0, batches[|batches|-1].1, slot);
    }
  }

  /**
   * Batches that write all slots, in any order and with repetitions, seal to the block that the ordered list of first
   * writes gives at once, exactly when the sizes add up without overflow (or overflow to the saturated value) and the
   * first writes come from the same node.
   */
  lemma AnyOrderSealsAlike(batches: seq<WriteBatch>, total: nat, numa: NumaNode, ordered: seq<SlotWrite>)
    requires BatchesInRange(batches, total) && InOrder(ordered, total)
    requires forall i | 0 <= i < total :: FirstOf(batches, i).Some? && FirstOf(batches, i).value.0 == ordered[i].1
    ensures Sound(NewInflight(total))
    ensures var f := FillBatches(NewInflight(total), batches);
            && f.remaining == 0
            && (forall i | 0 <= i < total :: f.slots[i].Some?)
            && (Sealed(f) == Ordered(ordered, numa) <==>
                  SumAgrees(TotalSize(BlocksOf(ordered))) && forall i | 0 <= i < total ::
                    FirstOf(batches, i).value.1 == numa)
  {
    NewSound(total);
    var f := FillBatches(NewInflight(total), batches);
    AllFirstWrites(batches, total, ordered);
    FullExactly(f);
    SealsLikeOrdered(f, numa, ordered);
  }

  ghost predicate HoldsFirst(f: Inflight, batches: seq<WriteBatch>, i: nat)
    requires i < |f.slots| == |f.numas|
  {
    FirstOf(batches, i).Some? && f.slots[i] == Some(FirstOf(batches, i).value.0)
        && f.numas[i] == FirstOf(batches, i).value.1
  }

  lemma AllFirstWrites(batches: seq<WriteBatch>, total: nat, ordered: seq<SlotWrite>)
    requires Sound(NewInflight(total)) && BatchesInRange(batches, total) && |ordered| == total
    requires forall i | 0 <= i < total :: FirstOf(batches, i).Some? && FirstOf(batches, i).value.0 == ordered[i].1
    ensures var f := FillBatches(NewInflight(total), batches);
            forall i | 0 <= i < total :: f.slots[i] == Some(ordered[i].1) && f.numas[i] == FirstOf(batches, i).value.1
  {
    var f := FillBatches(NewInflight(total), batches);
    forall i | 0 <= i < total ensures f.slots[i] == Some(ordered[i].1) && f.numas[i] == FirstOf(batches, i).value.1 {
      assert FirstOf(batches, i).Some?;
      FirstBatchWins(NewInflight(total), batches, i);
      assert HoldsFirst(f, batches, i);
    }
  }

  /** A block full of the ordered writes is theirs up to footprint and nodes. */
  lemma SealsLikeOrdered(f: Inflight, numa: NumaNode, ordered: seq<SlotWrite>)
    requires Sound(f) && |ordered| == |f.slots| && forall i | 0 <= i < |f.slots| :: f.slots[i] == Some(ordered[i].1)
    ensures Sealed(f) == Ordered(ordered, numa) <==>
              SumAgrees(TotalSize(BlocksOf(ordered))) && forall i | 0 <= i < |f.slots| :: f.numas[i] == numa
  {
    var blocks := BlocksOf(ordered);
    FilledTotal(f.slots, blocks);
    Saturates(blocks);
    WrapAgrees(TotalSize(blocks));
    SameSlots(Sealed(f), Ordered(ordered, numa), ordered, numa);
  }

  lemma TwoWrites(a: RawBlock, b: RawBlock, numa: NumaNode)
    ensures var writes: seq<SlotWrite> := [(0, a), (1, b)];
            && FirstOf([(writes, numa)], 0) == Some((a, numa)) && FirstOf([(writes, numa)], 1) == Some((b, numa))
            && TotalSize(BlocksOf(writes)) == Size(a) + Size(b)
  {
    var writes: seq<SlotWrite> := [(0, a), (1, b)];
    assert writes[..1][..0] == [] && [(writes, numa)][..0] == [];
    assert FirstWrite(writes[..1], 0) == Some(a) && FirstWrite(writes[..1], 1) == None;
    assert BlocksOf(writes) == [a, b] && [a, b][..1] == [a] && [a][..0] == [];
    assert TotalSize([a]) == Size(a);
  }

  /**
   Two slots of 2^63 bytes, more than any pool can hand out: one footprint wraps to 0, the other stops at the maximum.
   */
  lemma OverflowDiffers(alloc: nat, offset: nat, numa: NumaNode)
    ensures var half := RawBlock([Segment(alloc, offset, U64_RANGE / 2)]);
            var writes: seq<SlotWrite> := [(0, half), (1, half)];
            && Sound(NewInflight(2)) && BatchesInRange([(writes, numa)], 2)
            && var f := FillBatches(NewInflight(2), [(writes, numa)]);
               Full(f) && Sealed(f) != Ordered(writes, numa)
  {
    var half := RawBlock([Segment(alloc, offset, U64_RANGE / 2)]);
    var writes: seq<SlotWrite> := [(0, half), (1, half)];
    OneSegment(alloc, offset, U64_RANGE / 2);
    TwoWrites(half, half, numa);
    AnyOrderSealsAlike([(writes, numa)], 2, numa, writes);
    DivModUnique(U64_RANGE, 1, 0);
  }

  lemma OneSegment(alloc: nat, offset: nat, size: nat)
    ensures Size(RawBlock([Segment(alloc, offset, size)])) == size
  {
    var segments := [Segment(alloc, offset, size)];
    assert segments[..0] == [];
    assert SegmentSum(segments) == SegmentSum(segments[..0]) + size;
  }

  lemma WrapAgrees(total: nat)
    ensures total % U64_RANGE == Min(U64_MAX, total) <==> SumAgrees(total)
  {
    if total <= U64_MAX { DivModUnique(U64_RANGE, 0, total); }
  }

  lemma SameSlots(a: SealedBlock, b: SealedBlock, ordered: seq<SlotWrite>, numa: NumaNode)
    requires b == Ordered(ordered, numa) && |a.slots| == |a.numas| == |ordered|
    requires forall i | 0 <= i < |ordered| :: a.slots[i] == ordered[i].1
    ensures a == b <==> a.footprint == b.footprint && forall i | 0 <= i < |ordered| :: a.numas[i] == numa
  {
    assert a.slots == b.slots;
    assert (forall i | 0 <= i < |ordered| :: a.numas[i] == numa) <==> a.numas == b.numas;
  }
}
