/**
 Nothing that was saved gets stuck: a block whose slots have all been delivered is sealed once the queue is drained.
 */
module Progress {
  import opened Common
  import opened Blocks
  import opened WritePath
  import opened InsertEntries
  import opened Topology
  import opened SavePath
  import opened SaveBatches

  // ------------------------------------------------------------ one entry

  ghost predicate SlotFilled(inflight: Pending, key: BlockKey, slot: nat) {
    key in inflight && slot < |inflight[key].slots| && inflight[key].slots[slot].Some?
  }

  /** The delivered slot is filled in the pending block of its key. */
  ghost predicate Arrived(inflight: Pending, d: Delivery) { SlotFilled(inflight, d.0, d.1) }

  ghost predicate IsSealed(sealed: seq<(BlockKey, SealedBlock)>, key: BlockKey) {
    exists i | 0 <= i < |sealed| :: sealed[i].0 == key
  }

  ghost predicate SizedFor(inflight: Pending, key: BlockKey, total: nat) {
    key in inflight ==> |inflight[key].slots| == total
  }

  lemma ProcessKeeps(inflight: Pending, cached: set<BlockKey>, e: Entry, total: nat, numa: NumaNode, d: Delivery)
    requires Incomplete(inflight) && InRange(e.writes, total) && Arrived(inflight, d)
    ensures var (after, block) := Process(inflight, cached, e, total, numa);
            Arrived(after, d) || (block.Some? && e.key == d.0)
  {
    if e.key == d.0 && |inflight[d.0].slots| == total { FirstWriteWins(inflight[d.0], e.writes, numa, d.1); }
  }

  lemma ProcessArrives(inflight: Pending, cached: set<BlockKey>, e: Entry, total: nat, numa: NumaNode, d: Delivery)
    requires Incomplete(inflight) && InRange(e.writes, total) && d in DeliveriesOf(e)
    requires e.key !in cached && SizedFor(inflight, e.key, total)
    ensures var (after, block) := Process(inflight, cached, e, total, numa);
            Arrived(after, d) || (block.Some? && e.key == d.0)
  {
    var i :| 0 <= i < |e.writes| && d == (e.key, e.writes[i].0, e.writes[i].1);
    WriteFound(e.writes, i);
    FirstWriteWins(Start(inflight, e.key, total), e.writes, numa, d.1);
  }

  /** Blocks have the slot count of the batch that began them. */
  lemma ProcessSizes(inflight: Pending, cached: set<BlockKey>, e: Entry, total: nat, numa: NumaNode, key: BlockKey)
    requires Incomplete(inflight) && InRange(e.writes, total)
    ensures var (after, block) := Process(inflight, cached, e, total, numa);
            && (key in after ==>
                  (key in inflight && |after[key].slots| == |inflight[key].slots|)
                      || (key == e.key && |after[key].slots| == total))
            && (block.Some? ==> |block.value.slots| == total)
  {
  }

  // ------------------------------------------------------------ one batch

  lemma {:induction false} BatchKeeps(inflight: Pending, cached: set<BlockKey>, entries: seq<Entry>, total: nat,
                                      numa: NumaNode, d: Delivery)
    requires Incomplete(inflight) && AllInRange(entries, total) && Arrived(inflight, d)
    ensures var (after, sealed) := ProcessAll(inflight, cached, entries, total, numa);
            Arrived(after, d) || IsSealed(sealed, d.0)
  {
    if entries != [] {
      var n := |entries| - 1;
      BatchKeeps(inflight, cached, entries[..n], total, numa, d);
      LastKeeps(inflight, cached, entries, total, numa, d);
    }
  }

  ghost predicate Got(inflight: Pending, sealed: seq<(BlockKey, SealedBlock)>, d: Delivery) {
    Arrived(inflight, d) || IsSealed(sealed, d.0)
  }

  lemma SealedStays(sealed: seq<(BlockKey, SealedBlock)>, more: seq<(BlockKey, SealedBlock)>, key: BlockKey)
    ensures IsSealed(sealed, key) || IsSealed(more, key) ==> IsSealed(sealed + more, key)
  {
    if IsSealed(sealed, key) {
      var i :| 0 <= i < |sealed| && sealed[i].0 == key;
      assert (sealed + more)[i].0 == key;
    } else if IsSealed(more, key) {
      var i :| 0 <= i < |more| && more[i].0 == key;
      assert (sealed + more)[|sealed| + i].0 == key;
    }
  }

  /** The last entry of a batch loses nothing. */
  lemma LastKeeps(inflight: Pending, cached: set<BlockKey>, entries: seq<Entry>, total: nat, numa: NumaNode,
                  d: Delivery)
    requires Incomplete(inflight) && AllInRange(entries, total) && entries != []
    requires var (before, sealed) := ProcessAll(inflight, cached, entries[..|entries|-1], total, numa);
             Got(before, sealed, d)
    ensures var (after, sealed) := ProcessAll(inflight, cached, entries, total, numa); Got(after, sealed, d)
  {
    var n := |entries| - 1;
    var (before, sealed) := ProcessAll(inflight, cached, entries[..n], total, numa);
    var block := Process(before, cached, entries[n], total, numa).1;
    if block.Some? {
      SealedStays(sealed, [(entries[n].key, block.value)], d.0);
      assert [(entries[n].key, block.value)][0].0 == entries[n].key;
    }
    if Arrived(before, d) { ProcessKeeps(before, cached, entries[n], total, numa, d); }
  }

  /** The last entry of a batch delivers what it holds. */
  lemma LastArrives(inflight: Pending, cached: set<BlockKey>, entries: seq<Entry>, total: nat, numa: NumaNode,
                    d: Delivery)
    requires Incomplete(inflight) && AllInRange(entries, total) && entries != []
             && d in DeliveriesOf(entries[|entries|-1])
    requires d.0 !in cached && SizedFor(inflight, d.0, total)
    ensures var (after, sealed) := ProcessAll(inflight, cached, entries, total, numa); Got(after, sealed, d)
  {
    var n := |entries| - 1;
    var (before, sealed) := ProcessAll(inflight, cached, entries[..n], total, numa);
    BatchSizes(inflight, cached, entries[..n], total, numa, d.0);
    ProcessArrives(before, cached, entries[n], total, numa, d);
    var block := Process(before, cached, entries[n], total, numa).1;
    if block.Some? {
      SealedStays(sealed, [(entries[n].key, block.value)], d.0);
      assert [(entries[n].key, block.value)][0].0 == entries[n].key;
    }
  }

  lemma {:induction false} BatchArrives(inflight: Pending, cached: set<BlockKey>, entries: seq<Entry>, total: nat,
                                        numa: NumaNode, d: Delivery)
    requires Incomplete(inflight) && AllInRange(entries, total) && d in Deliveries(entries)
    requires d.0 !in cached && SizedFor(inflight, d.0, total)
    ensures var (after, sealed) := ProcessAll(inflight, cached, entries, total, numa); Got(after, sealed, d)
  {
    var n := |entries| - 1;
    if d in DeliveriesOf(entries[n]) {
      LastArrives(inflight, cached, entries, total, numa, d);
    } else {
      BatchArrives(inflight, cached, entries[..n], total, numa, d);
      LastKeeps(inflight, cached, entries, total, numa, d);
    }
  }

  ghost predicate HasKey(entries: seq<Entry>, key: BlockKey) { exists i | 0 <= i < |entries| :: entries[i].key == key }

  lemma {:induction false} BatchSizes(inflight: Pending, cached: set<BlockKey>, entries: seq<Entry>, total: nat,
                                      numa: NumaNode, key: BlockKey)
    requires Incomplete(inflight) && AllInRange(entries, total)
    ensures var (after, sealed) := ProcessAll(inflight, cached, entries, total, numa);
            && (key in after ==>
                  (key in inflight && |after[key].slots| == |inflight[key].slots|)
                      || (HasKey(entries, key) && |after[key].slots| == total))
            && (forall i | 0 <= i < |sealed| :: |sealed[i].1.slots| == total && HasKey(entries, sealed[i].0))
  {
    if entries != [] {
      var n := |entries| - 1;
      BatchSizes(inflight, cached, entries[..n], total, numa, key);
      HasKeyGrows(entries, n);
      ProcessSizes(ProcessAll(inflight, cached, entries[..n], total, numa).0, cached, entries[n], total, numa, key);
    }
  }

  lemma HasKeyGrows(entries: seq<Entry>, n: nat)
    requires n < |entries|
    ensures HasKey(entries, entries[n].key)
    ensures forall key | HasKey(entries[..n], key) :: HasKey(entries, key)
  {
    forall key | HasKey(entries[..n], key) ensures HasKey(entries, key) {
      var i :| 0 <= i < n && entries[..n][i].key == key;
      assert entries[i].key == key;
    }
  }

  // ------------------------------------------------------------ every run

  /** `n` is the slot count of a storage group that used this key. */
  ghost predicate Sized(e: Env, log: set<Record>, key: BlockKey, n: nat) { exists g: nat :: SizedAs(e, log, key, n, g) }

  ghost predicate SizedAs(e: Env, log: set<Record>, key: BlockKey, n: nat, g: nat) {
    SavedFor(e, log, key, g) && GroupTotalSlots(e.t, g) == Ok(n)
  }

  /** Only one storage group ever used this key. */
  ghost predicate OneGroup(e: Env, log: set<Record>, key: BlockKey) {
    forall g: nat, h: nat | SavedFor(e, log, key, g) && SavedFor(e, log, key, h) :: g == h
  }

  lemma SizedOnce(e: Env, log: set<Record>, key: BlockKey, m: nat, n: nat)
    requires OneGroup(e, log, key) && Sized(e, log, key, m) && Sized(e, log, key, n)
    ensures m == n
  {
    var g: nat :| SizedAs(e, log, key, m, g);
    var h: nat :| SizedAs(e, log, key, n, h);
  }

  lemma SavedForGrows(e: Env, log: set<Record>, more: set<Record>, key: BlockKey, g: nat)
    requires log <= more && SavedFor(e, log, key, g)
    ensures SavedFor(e, more, key, g)
  {
    var r :| r in log && OfGroup(e, r, key, g);
    assert r in more;
  }

  lemma SizedGrows(e: Env, log: set<Record>, more: set<Record>, key: BlockKey, n: nat)
    requires log <= more && Sized(e, log, key, n)
    ensures Sized(e, more, key, n)
  {
    var g: nat :| SizedAs(e, log, key, n, g);
    SavedForGrows(e, log, more, key, g);
    assert SizedAs(e, more, key, n, g);
  }

  lemma OneGroupShrinks(e: Env, log: set<Record>, more: set<Record>, key: BlockKey)
    requires log <= more && OneGroup(e, more, key)
    ensures OneGroup(e, log, key)
  {
    forall g: nat, h: nat | SavedFor(e, log, key, g) && SavedFor(e, log, key, h) ensures g == h {
      SavedForGrows(e, log, more, key, g);
      SavedForGrows(e, log, more, key, h);
    }
  }

  ghost predicate BatchSized(e: Env, log: set<Record>, b: Batch) {
    InsertEntries.WellFormed(b.layers) && forall t | t in Triples(b.layers) ::
      Sized(e, log, BlockKey(e.ns, t.0), b.total)
  }

  ghost predicate InBatch(ns: string, b: Batch, d: Delivery) {
    InsertEntries.WellFormed(b.layers) && d.0.ns == ns && (d.0.hash, d.1, d.2) in Triples(b.layers)
  }

  /** The delivery is in a batch that has not been processed. */
  ghost predicate Waiting(ns: string, queue: seq<Batch>, d: Delivery) { exists b | b in queue :: InBatch(ns, b, d) }

  /** Where a delivery is: queued, in its pending block, in a sealed one, or dropped because its key was resident. */
  ghost predicate Settled(ns: string, queue: seq<Batch>, inflight: Pending, sealed: seq<(BlockKey, SealedBlock)>,
                          seen: set<BlockKey>, d: Delivery) {
    Waiting(ns, queue, d) || Got(inflight, sealed, d) || d.0 in seen
  }

  ghost predicate AllSized(e: Env, log: set<Record>, queue: seq<Batch>, inflight: Pending,
                           sealed: seq<(BlockKey, SealedBlock)>) {
    && (forall b | b in queue :: BatchSized(e, log, b))
    && (forall k | k in inflight :: Sized(e, log, k, |inflight[k].slots|))
    && (forall i | 0 <= i < |sealed| :: Sized(e, log, sealed[i].0, |sealed[i].1.slots|))
  }

  /** No delivery under a key of one storage group is lost. */
  ghost predicate AllSettled(e: Env, log: set<Record>, delivered: set<Delivery>, queue: seq<Batch>, inflight: Pending,
                             sealed: seq<(BlockKey, SealedBlock)>, seen: set<BlockKey>) {
    forall d | d in delivered && OneGroup(e, log, d.0) :: Settled(e.ns, queue, inflight, sealed, seen, d)
  }

  ghost predicate Advancing(e: Env, log: set<Record>, delivered: set<Delivery>, queue: seq<Batch>, inflight: Pending,
                            sealed: seq<(BlockKey, SealedBlock)>, seen: set<BlockKey>) {
    AllSized(e, log, queue, inflight, sealed) && AllSettled(e, log, delivered, queue, inflight, sealed, seen)
  }

  /** A save queues what it delivers. */
  lemma SaveAdvances(e: Env, log: set<Record>, more: set<Record>, delivered: set<Delivery>, all: set<Delivery>,
                     queue: seq<Batch>, batches: seq<Batch>, inflight: Pending, sealed: seq<(BlockKey, SealedBlock)>,
                     seen: set<BlockKey>)
    requires Advancing(e, log, delivered, queue, inflight, sealed, seen) && log <= more
    requires forall d | d in all && d !in delivered :: Waiting(e.ns, batches, d)
    requires forall b | b in batches :: BatchSized(e, more, b)
    ensures Advancing(e, more, all, queue + batches, inflight, sealed, seen)
  {
    forall b | b in queue ensures BatchSized(e, more, b) {
      forall t | t in Triples(b.layers) ensures Sized(e, more, BlockKey(e.ns, t.0), b.total) {
        SizedGrows(e, log, more, BlockKey(e.ns, t.0), b.total);
      }
    }
    forall k | k in inflight
      ensures Sized(e, more, k, |inflight[k].slots|)
    {
      SizedGrows(e, log, more, k, |inflight[k].slots|);
    }
    forall i | 0 <= i < |sealed| ensures Sized(e, more, sealed[i].0, |sealed[i].1.slots|) {
      SizedGrows(e, log, more, sealed[i].0, |sealed[i].1.slots|);
    }
    forall d | d in all && OneGroup(e, more, d.0) ensures Settled(e.ns, queue + batches, inflight, sealed, seen, d) {
      OneGroupShrinks(e, log, more, d.0);
      WaitingGrows(e.ns, queue, batches, d);
    }
  }

  lemma WaitingGrows(ns: string, queue: seq<Batch>, batches: seq<Batch>, d: Delivery)
    ensures Waiting(ns, queue, d) || Waiting(ns, batches, d) ==> Waiting(ns, queue + batches, d)
  {
    if Waiting(ns, queue, d) {
      var b :| b in queue && InBatch(ns, b, d);
      assert b in queue + batches;
    } else if Waiting(ns, batches, d) {
      var b :| b in batches && InBatch(ns, b, d);
      assert b in queue + batches;
    }
  }

  // ------------------------------------------------------------ a batch is processed

  lemma {:induction false} EntryDelivers(entries: seq<Entry>, t: Triple)
    requires t in OfEntries(entries)
    ensures exists k | 0 <= k < |entries| ::
              entries[k].key.hash == t.0 && (entries[k].key, t.1, t.2) in Deliveries(entries)
  {
    var n := |entries| - 1;
    if t in OfEntries(entries[..n]) {
      EntryDelivers(entries[..n], t);
      var k :| 0 <= k < n && entries[..n][k].key.hash == t.0
          && (entries[..n][k].key, t.1, t.2) in Deliveries(entries[..n]);
      assert entries[k].key.hash == t.0;
    } else {
      WriteDelivers(entries[n], entries[n].writes, t);
      assert entries[n].key.hash == t.0;
    }
  }

  lemma {:induction false} WriteDelivers(e: Entry, writes: seq<SlotWrite>, t: Triple)
    requires writes <= e.writes && t in OfWrites(e.key.hash, writes)
    ensures e.key.hash == t.0 && (e.key, t.1, t.2) in DeliveriesOf(e)
  {
    var n := |writes| - 1;
    if t in OfWrites(e.key.hash, writes[..n]) {
      WriteDelivers(e, writes[..n], t);
    } else {
      assert writes[n] == e.writes[n];
    }
  }

  /** The entries made from a batch. */
  ghost predicate MadeFrom(ns: string, b: Batch, entries: seq<Entry>) {
    && InsertEntries.WellFormed(b.layers) && Keeps(entries, b.layers) && AllInRange(entries, b.total)
    && forall k | 0 <= k < |entries| :: entries[k].key.ns == ns && entries[k].writes != []
  }

  /** Whatever the batch holds, its entries deliver. */
  lemma BatchDelivered(ns: string, b: Batch, entries: seq<Entry>, d: Delivery)
    requires MadeFrom(ns, b, entries) && InBatch(ns, b, d)
    ensures d in Deliveries(entries)
  {
    var t: Triple := (d.0.hash, d.1, d.2);
    CountedIsThere(Triples(b.layers), t);
    CountedIsThere(OfEntries(entries), t);
    EntryDelivers(entries, t);
  }

  lemma EntriesSized(e: Env, log: set<Record>, b: Batch, entries: seq<Entry>, key: BlockKey)
    requires MadeFrom(e.ns, b, entries) && BatchSized(e, log, b) && HasKey(entries, key)
    ensures Sized(e, log, key, b.total)
  {
    var k :| 0 <= k < |entries| && entries[k].key == key;
    EntryWrite(entries, b.layers, k, 0);
    assert key == BlockKey(e.ns, key.hash);
  }

  lemma InsertSizes(e: Env, log: set<Record>, queue: seq<Batch>, inflight: Pending,
                    sealed: seq<(BlockKey, SealedBlock)>, resident: set<BlockKey>, entries: seq<Entry>, numa: NumaNode)
    requires AllSized(e, log, queue, inflight, sealed) && queue != [] && MadeFrom(e.ns, queue[0], entries)
             && Incomplete(inflight)
    ensures var (after, more) := ProcessAll(inflight, resident, entries, queue[0].total, numa);
            AllSized(e, log, queue[1..], after, sealed + more)
  {
    var b := queue[0];
    var (after, more) := ProcessAll(inflight, resident, entries, b.total, numa);
    assert b in queue && BatchSized(e, log, b);
    forall k | k in after ensures Sized(e, log, k, |after[k].slots|) {
      BatchSizes(inflight, resident, entries, b.total, numa, k);
      if HasKey(entries, k) { EntriesSized(e, log, b, entries, k); }
    }
    forall i | 0 <= i < |sealed + more| ensures Sized(e, log, (sealed + more)[i].0, |(sealed + more)[i].1.slots|) {
      if i >= |sealed| {
        BatchSizes(inflight, resident, entries, b.total, numa, more[i - |sealed|].0);
        EntriesSized(e, log, b, entries, more[i - |sealed|].0);
      }
    }
  }

  lemma InsertSettles(e: Env, log: set<Record>, queue: seq<Batch>, inflight: Pending,
                      sealed: seq<(BlockKey, SealedBlock)>,
                      seen: set<BlockKey>, resident: set<BlockKey>, entries: seq<Entry>, numa: NumaNode, d: Delivery)
    requires AllSized(e, log, queue, inflight, sealed) && queue != [] && MadeFrom(e.ns, queue[0], entries)
             && Incomplete(inflight)
    requires OneGroup(e, log, d.0) && Settled(e.ns, queue, inflight, sealed, seen, d)
    ensures var (after, more) := ProcessAll(inflight, resident, entries, queue[0].total, numa);
            Settled(e.ns, queue[1..], after, sealed + more, seen + resident, d)
  {
    var b := queue[0];
    var more := ProcessAll(inflight, resident, entries, b.total, numa).1;
    SealedStays(sealed, more, d.0);
    if Arrived(inflight, d) {
      BatchKeeps(inflight, resident, entries, b.total, numa, d);
    } else if Waiting(e.ns, queue, d) && !Waiting(e.ns, queue[1..], d) && d.0 !in resident {
      FirstWaiting(e.ns, queue, d);
      BatchDelivered(e.ns, b, entries, d);
      ArrivingSized(e, log, queue, inflight, sealed, d);
      BatchArrives(inflight, resident, entries, b.total, numa, d);
    }
  }

  lemma FirstWaiting(ns: string, queue: seq<Batch>, d: Delivery)
    requires Waiting(ns, queue, d) && !Waiting(ns, queue[1..], d)
    ensures InBatch(ns, queue[0], d)
  {
    var b :| b in queue && InBatch(ns, b, d);
    assert queue == [queue[0]] + queue[1..];
  }

  lemma ArrivingSized(e: Env, log: set<Record>, queue: seq<Batch>, inflight: Pending,
                      sealed: seq<(BlockKey, SealedBlock)>, d: Delivery)
    requires AllSized(e, log, queue, inflight, sealed) && queue != [] && InBatch(e.ns, queue[0], d)
             && OneGroup(e, log, d.0)
    ensures SizedFor(inflight, d.0, queue[0].total)
  {
    var b := queue[0];
    assert b in queue && BatchSized(e, log, b);
    var t: Triple := (d.0.hash, d.1, d.2);
    assert Sized(e, log, BlockKey(e.ns, t.0), b.total) && d.0 == BlockKey(e.ns, t.0);
    if d.0 in inflight { SizedOnce(e, log, d.0, |inflight[d.0].slots|, b.total); }
  }

  /** The insert worker moves every delivery of its batch on. */
  lemma InsertAdvances(e: Env, log: set<Record>, delivered: set<Delivery>, queue: seq<Batch>, inflight: Pending,
                       sealed: seq<(BlockKey, SealedBlock)>, seen: set<BlockKey>, resident: set<BlockKey>,
                       entries: seq<Entry>, numa: NumaNode)
    requires Advancing(e, log, delivered, queue, inflight, sealed, seen) && Incomplete(inflight)
    requires queue != [] && MadeFrom(e.ns, queue[0], entries)
    ensures var (after, more) := ProcessAll(inflight, resident, entries, queue[0].total, numa);
            Advancing(e, log, delivered, queue[1..], after, sealed + more, seen + resident)
  {
    var (after, more) := ProcessAll(inflight, resident, entries, queue[0].total, numa);
    InsertSizes(e, log, queue, inflight, sealed, resident, entries, numa);
    forall d | d in delivered && OneGroup(e, log, d.0)
      ensures Settled(e.ns, queue[1..], after, sealed + more, seen + resident, d)
    {
      InsertSettles(e, log, queue, inflight, sealed, seen, resident, entries, numa, d);
    }
  }

  // ------------------------------------------------------------ a drained queue

  ghost predicate SlotDelivered(delivered: set<Delivery>, key: BlockKey, slot: nat) {
    exists raw :: (key, slot, raw) in delivered
  }

  /** `sealed` has a block of this key with all `total` slots. */
  ghost predicate SealedWhole(sealed: seq<(BlockKey, SealedBlock)>, key: BlockKey, total: nat) {
    exists i | 0 <= i < |sealed| :: sealed[i].0 == key && |sealed[i].1.slots| == total
  }

  /**
   Once the queue is drained, every key whose slots were all delivered is sealed with all its slots, unless it was
   resident when a batch came in: late duplicates are dropped.
   */
  lemma DrainedIsSealed(e: Env, log: set<Record>, delivered: set<Delivery>, inflight: Pending,
                        sealed: seq<(BlockKey, SealedBlock)>, seen: set<BlockKey>, key: BlockKey, g: nat, total: nat)
    requires Advancing(e, log, delivered, [], inflight, sealed, seen) && Incomplete(inflight)
    requires OneGroup(e, log, key) && SavedFor(e, log, key, g) && GroupTotalSlots(e.t, g) == Ok(total) && total > 0
    requires key !in seen && forall slot: nat | slot < total :: SlotDelivered(delivered, key, slot)
    ensures SealedWhole(sealed, key, total)
  {
    assert SizedAs(e, log, key, total, g);
    var slot := SomeSlotEmpty(e, log, inflight, key, total);
    assert SlotDelivered(delivered, key, slot);
    var raw :| (key, slot, raw) in delivered;
    assert Settled(e.ns, [], inflight, sealed, seen, (key, slot, raw));
    var i :| 0 <= i < |sealed| && sealed[i].0 == key;
    SizedOnce(e, log, key, |sealed[i].1.slots|, total);
  }

  /** A pending block is not complete. */
  lemma SomeSlotEmpty(e: Env, log: set<Record>, inflight: Pending, key: BlockKey, total: nat) returns (slot: nat)
    requires Incomplete(inflight) && OneGroup(e, log, key) && Sized(e, log, key, total) && total > 0
    requires forall k | k in inflight :: Sized(e, log, k, |inflight[k].slots|)
    ensures slot < total && !SlotFilled(inflight, key, slot)
  {
    slot := 0;
    if key in inflight {
      SizedOnce(e, log, key, |inflight[key].slots|, total);
      FullExactly(inflight[key]);
      slot :| slot < total && inflight[key].slots[slot].None?;
    }
  }

  /** In a layer-first instance it is enough that every layer and rank of the storage group was delivered. */
  lemma LayersDelivered(t: LayerTopology, delivered: set<Delivery>, key: BlockKey, g: nat, total: nat)
    requires Ranked(t) && t.page.None? && t.tpSize > 0 && GroupTotalSlots(t, g) == Ok(total)
    requires forall x: nat, rank: nat | x < |t.names| && t.layerGroup[x] == g && rank < t.tpSize ::
               SlotDelivered(delivered, key, SlotIndex(t, x, rank).value)
    ensures forall slot: nat | slot < total :: SlotDelivered(delivered, key, slot)
  {
    forall slot: nat | slot < total ensures SlotDelivered(delivered, key, slot) {
      var x, rank := SlotSurjective(t, g, slot);
      assert SlotDelivered(delivered, key, SlotIndex(t, x, rank).value);
    }
  }
}
