/** The insert worker: collects the slots of each block key and seals a block when its last slot arrives. */
module WritePath {
  import opened Common
  import opened Seqs
  import opened Blocks

  datatype Entry = Entry(key: BlockKey, writes: seq<SlotWrite>)

  type Pending = map<BlockKey, Inflight>

  /** A slot content that some save delivered for a key. */
  type Delivery = (BlockKey, nat, RawBlock)

  /** No pending block is complete. */
  ghost predicate Incomplete(inflight: Pending) {
    forall k | k in inflight :: Sound(inflight[k]) && inflight[k].remaining > 0
  }

  function Start(inflight: Pending, key: BlockKey, total: nat): (f: Inflight)
    requires Incomplete(inflight)
    ensures Sound(f)
  {
    if key in inflight then inflight[key] else NewSound(total); NewInflight(total)
  }

  /** What one entry does: the pending blocks after it, and the block it sealed. */
  function Process(inflight: Pending, cached: set<BlockKey>, e: Entry, total: nat, numa: NumaNode): (Pending,
      Option<SealedBlock>)
    requires Incomplete(inflight) && InRange(e.writes, total)
  {
    if e.key in cached then (inflight, None)
    else if e.key !in inflight && InOrder(e.writes, total) then (inflight, Some(Ordered(e.writes, numa)))
    else if e.key in inflight && |inflight[e.key].slots| != total then (inflight, None)
    else
      var start := Start(inflight, e.key, total);
      var f := Fill(start, e.writes, numa);
      if start.remaining > 0 && f.remaining == 0 then FullExactly(f); (inflight - {e.key}, Some(Sealed(f)))
      else (inflight[e.key := f], None)
  }

  lemma {:induction false} FullStaysFull(f: Inflight, writes: seq<SlotWrite>, numa: NumaNode)
    requires Sound(f) && f.remaining == 0 && InRange(writes, |f.slots|)
    ensures Fill(f, writes, numa) == f
  {
    if writes != [] {
      FullStaysFull(f, writes[..|writes|-1], numa);
      FullExactly(f);
    }
  }

  lemma {:induction false} FillInParts(f: Inflight, a: seq<SlotWrite>, b: seq<SlotWrite>, numa: NumaNode)
    requires Sound(f) && InRange(a + b, |f.slots|)
    ensures InRange(a, |f.slots|) && InRange(b, |f.slots|)
    ensures Fill(f, a + b, numa) == Fill(Fill(f, a, numa), b, numa)
  {
    assert forall i | 0 <= i < |a| :: a[i] == (a + b)[i];
    assert forall i | 0 <= i < |b| :: b[i] == (a + b)[|a| + i];
    if b == [] {
      assert a + b == a;
    } else {
      var front := b[..|b|-1];
      assert (a + b)[..|a + b|-1] == a + front;
      FillInParts(f, a, front, numa);
    }
  }

  /** Complete blocks leave the pending map at once. */
  lemma ProcessIncomplete(inflight: Pending, cached: set<BlockKey>, e: Entry, total: nat, numa: NumaNode)
    requires Incomplete(inflight) && InRange(e.writes, total)
    ensures Incomplete(Process(inflight, cached, e, total, numa).0)
  {
    var start := Start(inflight, e.key, total);
    if start.remaining == 0 {
      FullExactly(start);
      assert total == 0 by { NewSound(total); }
      if e.writes != [] { SomeWriteOutOfRange(e.writes); }
    }
  }

  lemma SomeWriteOutOfRange(writes: seq<SlotWrite>)
    requires writes != []
    ensures !InRange(writes, 0)
  {
    assert writes[0].0 >= 0;
  }

  ghost predicate AllInRange(entries: seq<Entry>, total: nat) {
    forall i | 0 <= i < |entries| :: InRange(entries[i].writes, total)
  }

  function ProcessAll(inflight: Pending, cached: set<BlockKey>, entries: seq<Entry>, total: nat, numa: NumaNode)
    : (r: (Pending, seq<(BlockKey, SealedBlock)>))
    requires Incomplete(inflight) && AllInRange(entries, total)
    ensures Incomplete(r.0)
  {
    if entries == [] then (inflight, [])
    else
      var e := entries[|entries|-1];
      var (before, sealed) := ProcessAll(inflight, cached, entries[..|entries|-1], total, numa);
      ProcessIncomplete(before, cached, e, total, numa);
      var (after, block) := Process(before, cached, e, total, numa);
      (after, if block.Some? then sealed + [(e.key, block.value)] else sealed)
  }

  lemma FillOneMore(start: Inflight, writes: seq<SlotWrite>, i: nat, numa: NumaNode)
    requires Sound(start) && InRange(writes, |start.slots|) && i < |writes|
    ensures InRange(writes[..i], |start.slots|) && InRange(writes[..i+1], |start.slots|)
    ensures Fill(start, writes[..i+1], numa) ==
              InsertSlot(Fill(start, writes[..i], numa), writes[i].0, writes[i].1, numa)
  {
    assert writes[..i+1][..i] == writes[..i];
  }

  /** Inserts slot by slot and stops at the write that completes the block. */
  method FillUntilComplete(start: Inflight, writes: seq<SlotWrite>, numa: NumaNode)
    returns (f: Inflight, completed: bool)
    requires Sound(start) && InRange(writes, |start.slots|)
    ensures f == Fill(start, writes, numa)
    ensures completed <==> start.remaining > 0 && f.remaining == 0
  {
    f, completed := start, false;
    var i := 0;
    while i < |writes| && !completed
      invariant 0 <= i <= |writes| && InRange(writes[..i], |start.slots|) && f == Fill(start, writes[..i], numa)
      invariant start.remaining > 0 ==> (completed <==> f.remaining == 0)
      invariant start.remaining == 0 ==> !completed && f.remaining == 0
      decreases |writes| - i
    {
      var (slot, block) := writes[i];
      TakeNext([], writes, i);
      FullExactly(f);
      FillOneMore(start, writes, i, numa);
      if f.slots[slot].None? {
        InsertSound(f, slot, block, numa);
        f := InsertSlot(f, slot, block, numa);
        completed := f.remaining == 0;
      }
      i := i + 1;
    }
    FillRest(start, writes, i, numa);
  }

  /** Writes to a full block change nothing. */
  lemma FillRest(start: Inflight, writes: seq<SlotWrite>, i: nat, numa: NumaNode)
    requires Sound(start) && InRange(writes, |start.slots|) && i <= |writes| && InRange(writes[..i], |start.slots|)
    requires i < |writes| ==> Fill(start, writes[..i], numa).remaining == 0
    ensures Fill(start, writes, numa) == Fill(start, writes[..i], numa)
  {
    assert writes == writes[..i] + writes[i..];
    FillInParts(start, writes[..i], writes[i..], numa);
    if i < |writes| { FullStaysFull(Fill(start, writes[..i], numa), writes[i..], numa); }
  }

  class InsertWorker {
    var inflight: Pending

    constructor ()
      ensures inflight == map[] && Incomplete(inflight)
    {
      inflight := map[];
    }

    /** Fills a pending block; when that completes it, seals it and forgets it. */
    method InsertPartial(e: Entry, total: nat, numa: NumaNode) returns (sealed: Option<SealedBlock>)
      requires Incomplete(inflight) && InRange(e.writes, total)
      requires !(e.key !in inflight && InOrder(e.writes, total))
      modifies this
      ensures (inflight, sealed) == Process(old(inflight), {}, e, total, numa)
    {
      if e.key in inflight && |inflight[e.key].slots| != total { return None; }
      var start := Start(inflight, e.key, total);
      var f, completed := FillUntilComplete(start, e.writes, numa);
      if completed {
        FullExactly(f);
        inflight := inflight - {e.key};
        sealed := Some(Sealed(f));
      } else {
        inflight := inflight[e.key := f];
        sealed := None;
      }
    }

    /** Entries of keys that are resident already are late duplicates and are dropped. */
    method ProcessEntry(cached: set<BlockKey>, e: Entry, total: nat, numa: NumaNode)
      returns (sealed: Option<SealedBlock>)
      requires Incomplete(inflight) && InRange(e.writes, total)
      modifies this
      ensures Incomplete(inflight) && (inflight, sealed) == Process(old(inflight), cached, e, total, numa)
    {
      ProcessIncomplete(inflight, cached, e, total, numa);
      sealed := None;
      if e.key !in cached {
        if e.key !in inflight { sealed := FromOrdered(e.writes, total, numa); }
        if sealed.None? { sealed := InsertPartial(e, total, numa); }
      }
    }

    method ProcessBatch(cached: set<BlockKey>, entries: seq<Entry>, total: nat, numa: NumaNode)
      returns (sealed: seq<(BlockKey, SealedBlock)>)
      requires Incomplete(inflight) && AllInRange(entries, total)
      modifies this
      ensures Incomplete(inflight) && (inflight, sealed) == ProcessAll(old(inflight), cached, entries, total, numa)
    {
      sealed := [];
      for i := 0 to |entries|
        invariant Incomplete(inflight) && AllInRange(entries[..i], total)
        invariant (inflight, sealed) == ProcessAll(old(inflight), cached, entries[..i], total, numa)
      {
        assert entries[..i+1][..i] == entries[..i];
        var block := ProcessEntry(cached, entries[i], total, numa);
        if block.Some? { sealed := sealed + [(entries[i].key, block.value)]; }
      }
      assert entries[..|entries|] == entries;
    }
  }

  // ------------------------------------------------------------ nothing is invented, nothing complete is withheld

  ghost predicate FromDeliveries(f: Inflight, key: BlockKey, delivered: set<Delivery>) {
    forall i | 0 <= i < |f.slots| && f.slots[i].Some? :: (key, i, f.slots[i].value) in delivered
  }

  ghost predicate SealedFrom(b: SealedBlock, key: BlockKey, delivered: set<Delivery>) {
    forall i | 0 <= i < |b.slots| :: (key, i, b.slots[i]) in delivered
  }

  /** Every slot held for a key, pending or sealed, was delivered for that key and slot. */
  ghost predicate Traced(inflight: Pending, sealed: seq<(BlockKey, SealedBlock)>, delivered: set<Delivery>) {
    && (forall k | k in inflight :: FromDeliveries(inflight[k], k, delivered))
    && (forall i | 0 <= i < |sealed| :: SealedFrom(sealed[i].1, sealed[i].0, delivered))
  }

  ghost function DeliveriesOf(e: Entry): set<Delivery> {
    set i | 0 <= i < |e.writes| :: (e.key, e.writes[i].0, e.writes[i].1)
  }

  ghost function Deliveries(entries: seq<Entry>): set<Delivery> {
    if entries == [] then {} else Deliveries(entries[..|entries|-1]) + DeliveriesOf(entries[|entries|-1])
  }

  lemma {:induction false} FirstWriteDelivered(e: Entry, writes: seq<SlotWrite>, slot: nat)
    requires writes <= e.writes && FirstWrite(writes, slot).Some?
    ensures (e.key, slot, FirstWrite(writes, slot).value) in DeliveriesOf(e)
  {
    var n := |writes| - 1;
    if FirstWrite(writes[..n], slot).Some? {
      FirstWriteDelivered(e, writes[..n], slot);
    } else {
      assert writes[n] == e.writes[n];
    }
  }

  lemma FillTraced(f: Inflight, e: Entry, numa: NumaNode, delivered: set<Delivery>)
    requires Sound(f) && InRange(e.writes, |f.slots|) && FromDeliveries(f, e.key, delivered)
    ensures FromDeliveries(Fill(f, e.writes, numa), e.key, delivered + DeliveriesOf(e))
  {
    var g := Fill(f, e.writes, numa);
    forall i | 0 <= i < |g.slots| && g.slots[i].Some?
      ensures (e.key, i, g.slots[i].value) in delivered + DeliveriesOf(e)
    {
      FirstWriteWins(f, e.writes, numa, i);
      if f.slots[i].None? { FirstWriteDelivered(e, e.writes, i); }
    }
  }

  lemma SealedTraced(f: Inflight, key: BlockKey, delivered: set<Delivery>)
    requires FromDeliveries(f, key, delivered) && Full(f)
    ensures SealedFrom(Sealed(f), key, delivered)
  {
    forall i | 0 <= i < |f.slots| ensures (key, i, Sealed(f).slots[i]) in delivered {
      assert f.slots[i].Some?;
    }
  }

  lemma GrowTraced(inflight: Pending, some: set<Delivery>, more: set<Delivery>)
    requires Traced(inflight, [], some) && some <= more
    ensures Traced(inflight, [], more)
  {
  }

  lemma ProcessTraced(inflight: Pending, cached: set<BlockKey>, e: Entry, total: nat, numa: NumaNode,
                      delivered: set<Delivery>)
    requires Incomplete(inflight) && InRange(e.writes, total) && Traced(inflight, [], delivered)
    ensures var (after, block) := Process(inflight, cached, e, total, numa);
            && Traced(after, [], delivered + DeliveriesOf(e))
            && (block.Some? ==> SealedFrom(block.value, e.key, delivered + DeliveriesOf(e)))
  {
    GrowTraced(inflight, delivered, delivered + DeliveriesOf(e));
    if e.key !in cached {
      if e.key !in inflight && InOrder(e.writes, total) {
        OrderedTraced(e, total, delivered);
      } else if !(e.key in inflight && |inflight[e.key].slots| != total) {
        PartialTraced(Start(inflight, e.key, total), e, numa, delivered);
        FullExactly(Fill(Start(inflight, e.key, total), e.writes, numa));
      }
    }
  }

  lemma OrderedTraced(e: Entry, total: nat, delivered: set<Delivery>)
    requires InOrder(e.writes, total)
    ensures forall i | 0 <= i < |e.writes| :: (e.key, i, e.writes[i].1) in delivered + DeliveriesOf(e)
  {
    forall i | 0 <= i < |e.writes| ensures (e.key, i, e.writes[i].1) in DeliveriesOf(e) { assert e.writes[i].0 == i; }
  }

  lemma PartialTraced(start: Inflight, e: Entry, numa: NumaNode, delivered: set<Delivery>)
    requires Sound(start) && InRange(e.writes, |start.slots|) && FromDeliveries(start, e.key, delivered)
    ensures var f, all := Fill(start, e.writes, numa), delivered + DeliveriesOf(e);
            FromDeliveries(f, e.key, all) && (Full(f) ==> SealedFrom(Sealed(f), e.key, all))
  {
    var f := Fill(start, e.writes, numa);
    FillTraced(start, e, numa, delivered);
    if Full(f) { SealedTraced(f, e.key, delivered + DeliveriesOf(e)); }
  }

  lemma {:induction false} BatchTraced(inflight: Pending, cached: set<BlockKey>, entries: seq<Entry>, total: nat,
                                       numa: NumaNode, delivered: set<Delivery>)
    requires Incomplete(inflight) && AllInRange(entries, total) && Traced(inflight, [], delivered)
    ensures var (after, sealed) := ProcessAll(inflight, cached, entries, total, numa);
            Traced(after, sealed, delivered + Deliveries(entries))
  {
    if entries != [] {
      var n := |entries| - 1;
      var (before, sealed) := ProcessAll(inflight, cached, entries[..n], total, numa);
      BatchTraced(inflight, cached, entries[..n], total, numa, delivered);
      var all := delivered + Deliveries(entries[..n]);
      assert Traced(before, [], all);
      ProcessTraced(before, cached, entries[n], total, numa, all);
      assert all + DeliveriesOf(entries[n]) == delivered + Deliveries(entries);
    }
  }

  /** An entry that is not a duplicate seals its key exactly when no slot stays empty. */
  lemma SealsExactlyWhenFull(inflight: Pending, cached: set<BlockKey>, e: Entry, total: nat, numa: NumaNode)
    requires Incomplete(inflight) && InRange(e.writes, total) && e.key !in cached && total > 0
    requires e.key in inflight ==> |inflight[e.key].slots| == total
    ensures Process(inflight, cached, e, total, numa).1.Some? <==>
              forall i | 0 <= i < total :: Start(inflight, e.key, total).slots[i].Some? || FirstWrite(e.writes, i).Some?
  {
    var start := Start(inflight, e.key, total);
    var f := Fill(start, e.writes, numa);
    FullExactly(start);
    FullExactly(f);
    forall i | 0 <= i < total
      ensures f.slots[i].Some? <==> start.slots[i].Some? || FirstWrite(e.writes, i).Some?
    {
      FirstWriteWins(start, e.writes, numa, i);
    }
    if e.key !in inflight && InOrder(e.writes, total) {
      forall i | 0 <= i < total ensures FirstWrite(e.writes, i).Some? { WriteFound(e.writes, i); }
    }
  }

  lemma {:induction false} WriteFound(writes: seq<SlotWrite>, i: nat)
    requires i < |writes|
    ensures FirstWrite(writes, writes[i].0).Some?
  {
    if i < |writes| - 1 { WriteFound(writes[..|writes|-1], i); }
  }

  lemma FillOne(f: Inflight, slot: nat, block: RawBlock, numa: NumaNode)
    requires Sound(f) && slot < |f.slots|
    ensures InRange([(slot, block)], |f.slots|) && Fill(f, [(slot, block)], numa) == InsertSlot(f, slot, block, numa)
  {
    assert [(slot, block)][..0] == [];
  }

  /** One write that leaves its block pending. */
  lemma WriteOne(inflight: Pending, key: BlockKey, total: nat, slot: nat, block: RawBlock, numa: NumaNode)
    requires Incomplete(inflight) && slot < total && total > 1 && (key in inflight ==> |inflight[key].slots| == total)
    requires InsertSlot(Start(inflight, key, total), slot, block, numa).remaining > 0
    ensures InRange([(slot, block)], total)
    ensures Process(inflight, {}, Entry(key, [(slot, block)]), total, numa)
            == (inflight[key := InsertSlot(Start(inflight, key, total), slot, block, numa)], None)
  {
    FillOne(Start(inflight, key, total), slot, block, numa);
  }

  /** Of two saves of one slot the first is sealed, whatever the second holds. */
  lemma FirstSaveWins(key: BlockKey, first: RawBlock, second: RawBlock, other: RawBlock, numa: NumaNode)
    ensures var entries := [Entry(key, [(0, first)]), Entry(key, [(0, second)]), Entry(key, [(1, other)])];
            && AllInRange(entries, 2) && Incomplete(map[])
            && var sealed := ProcessAll(map[], {}, entries, 2, numa).1;
               |sealed| == 1 && sealed[0].0 == key && sealed[0].1.slots == [first, other]
  {
    var a, b, c := Entry(key, [(0, first)]), Entry(key, [(0, second)]), Entry(key, [(1, other)]);
    NewSound(2);
    var f := InsertSlot(NewInflight(2), 0, first, numa);
    InsertSound(NewInflight(2), 0, first, numa);
    var none: Pending, some: Pending := map[], map[key := f];
    WriteOne(none, key, 2, 0, first, numa);
    WriteOne(some, key, 2, 0, second, numa);
    assert InsertSlot(f, 0, second, numa) == f && some[key := f] == some;
    FillOne(f, 1, other, numa);
    var g := InsertSlot(f, 1, other, numa);
    InsertSound(f, 1, other, numa);
    FullExactly(g);
    assert Process(some, {}, c, 2, numa).1 == Some(Sealed(g));
    assert Sealed(g).slots == [first, other];
    assert [a][..0] == [] && [a, b][..1] == [a] && [a, b, c][..2] == [a, b];
    assert ProcessAll(none, {}, [a], 2, numa) == (some, []);
    assert ProcessAll(none, {}, [a, b], 2, numa) == (some, []);
  }
}
