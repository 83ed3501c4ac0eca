/** The insert worker over its whole life: what it seals under a key, told from what arrived for that key. */
module SealHistory {
  import opened Common
  import opened Seqs
  import opened Blocks
  import opened WritePath

  /** An entry as it reaches the worker, with the keys that were resident at that moment. */
  datatype Arrival = Arrival(cached: set<BlockKey>, entry: Entry, total: nat, numa: NumaNode)

  ghost predicate Arrived(h: seq<Arrival>) { forall i | 0 <= i < |h| :: InRange(h[i].entry.writes, h[i].total) }

  // ------------------------------------------------------------ what the worker does

  ghost function PendingAfter(h: seq<Arrival>): (p: Pending)
    requires Arrived(h)
    ensures Incomplete(p)
  {
    if h == [] then map[]
    else
      var a, before := h[|h|-1], PendingAfter(h[..|h|-1]);
      ProcessIncomplete(before, a.cached, a.entry, a.total, a.numa);
      Process(before, a.cached, a.entry, a.total, a.numa).0
  }

  /** The block that the last arrival sealed. */
  ghost function LastSealed(h: seq<Arrival>): Option<SealedBlock>
    requires Arrived(h) && h != []
  {
    var a := h[|h|-1];
    Process(PendingAfter(h[..|h|-1]), a.cached, a.entry, a.total, a.numa).1
  }

  ghost function SealedIn(h: seq<Arrival>): seq<(BlockKey, SealedBlock)>
    requires Arrived(h)
  {
    if h == [] then []
    else
      var before, block := SealedIn(h[..|h|-1]), LastSealed(h);
      if block.Some? then before + [(h[|h|-1].entry.key, block.value)] else before
  }

  // ------------------------------------------------------------ what it is meant to do

  /** Writes collected for a key that has `total` slots. */
  datatype Collection = Collection(total: nat, writes: seq<SlotWrite>)

  predicate Covered(c: Collection) { forall slot: nat | slot < c.total :: FirstWrite(c.writes, slot).Some? }

  /** Late duplicates and entries of another slot count are dropped. */
  predicate Taken(a: Arrival, key: BlockKey, open: Option<Collection>) {
    a.entry.key == key && key !in a.cached && (open.Some? ==> open.value.total == a.total)
  }

  function Extended(open: Option<Collection>, a: Arrival): Collection {
    Collection(a.total, (if open.Some? then open.value.writes else []) + a.entry.writes)
  }

  /** What was collected for `key` since it was last covered. */
  ghost function Open(h: seq<Arrival>, key: BlockKey): Option<Collection> {
    if h == [] then None
    else
      var a, open := h[|h|-1], Open(h[..|h|-1], key);
      if !Taken(a, key, open) then open
      else if Covered(Extended(open, a)) then None
      else Some(Extended(open, a))
  }

  /** What was collected for the key of arrival `m`, that arrival included. */
  ghost function CollectedAt(h: seq<Arrival>, m: nat): Collection
    requires m < |h|
  {
    Extended(Open(h[..m], h[m].entry.key), h[m])
  }

  // ------------------------------------------------------------ the two agree

  /** Every slot has its first write. */
  ghost predicate FirstOnes(slots: seq<Option<RawBlock>>, c: Collection) {
    |slots| == c.total && forall slot: nat | slot < c.total :: slots[slot] == FirstWrite(c.writes, slot)
  }

  ghost predicate SealsFirst(b: SealedBlock, c: Collection) {
    |b.slots| == c.total && forall slot: nat | slot < c.total :: FirstWrite(c.writes, slot) == Some(b.slots[slot])
  }

  ghost predicate Tracks(p: Pending, key: BlockKey, open: Option<Collection>) {
    && (key in p <==> open.Some?)
    && (open.Some? ==> FirstOnes(p[key].slots, open.value))
  }

  lemma {:induction false} FirstOfTwo(a: seq<SlotWrite>, b: seq<SlotWrite>, slot: nat)
    ensures FirstWrite(a + b, slot) == if FirstWrite(a, slot).Some? then FirstWrite(a, slot) else FirstWrite(b, slot)
  {
    if b == [] {
      assert a + b == a;
    } else {
      assert (a + b)[..|a + b|-1] == a + b[..|b|-1];
      FirstOfTwo(a, b[..|b|-1], slot);
    }
  }

  lemma {:induction false} FirstInOrder(writes: seq<SlotWrite>, slot: nat)
    requires forall i | 0 <= i < |writes| :: writes[i].0 == i
    ensures FirstWrite(writes, slot) == if slot < |writes| then Some(writes[slot].1) else None
  {
    if writes != [] { FirstInOrder(writes[..|writes|-1], slot); }
  }

  /** A list in slot order covers every slot. */
  lemma OrderedCovers(a: Arrival)
    requires InOrder(a.entry.writes, a.total)
    ensures Covered(Extended(None, a)) && SealsFirst(Ordered(a.entry.writes, a.numa), Extended(None, a))
  {
    assert [] + a.entry.writes == a.entry.writes;
    forall slot: nat | slot < a.total ensures FirstWrite(a.entry.writes, slot) == Some(a.entry.writes[slot].1) {
      FirstInOrder(a.entry.writes, slot);
    }
  }

  lemma FillCollects(start: Inflight, open: Option<Collection>, a: Arrival)
    requires Blocks.Sound(start) && |start.slots| == a.total && InRange(a.entry.writes, a.total)
    requires FirstOnes(start.slots, Collection(a.total, if open.Some? then open.value.writes else []))
    ensures FirstOnes(Fill(start, a.entry.writes, a.numa).slots, Extended(open, a))
  {
    var writes := if open.Some? then open.value.writes else [];
    forall slot: nat | slot < a.total
      ensures Fill(start, a.entry.writes, a.numa).slots[slot] == FirstWrite(writes + a.entry.writes, slot)
    {
      FirstWriteWins(start, a.entry.writes, a.numa, slot);
      FirstOfTwo(writes, a.entry.writes, slot);
    }
  }

  lemma FullIsCovered(f: Inflight, c: Collection)
    requires Blocks.Sound(f) && FirstOnes(f.slots, c)
    ensures f.remaining == 0 <==> Covered(c)
    ensures f.remaining == 0 ==> Full(f) && SealsFirst(Sealed(f), c)
  {
    FullExactly(f);
    if Covered(c) {
      forall i | 0 <= i < |f.slots| ensures f.slots[i].Some? { assert FirstWrite(c.writes, i).Some?; }
    }
  }

  /** One arrival for its own key. */
  lemma ArrivalTracked(p: Pending, a: Arrival, open: Option<Collection>)
    requires Incomplete(p) && InRange(a.entry.writes, a.total) && Tracks(p, a.entry.key, open)
    ensures var (after, block) := Process(p, a.cached, a.entry, a.total, a.numa);
            var c := Extended(open, a);
            && (block.Some? <==> Taken(a, a.entry.key, open) && Covered(c))
            && (block.Some? ==> a.entry.key !in after && SealsFirst(block.value, c))
            && Tracks(after, a.entry.key,
                      if !Taken(a, a.entry.key, open) then open else if Covered(c) then None else Some(c))
  {
    var key := a.entry.key;
    if Taken(a, key, open) {
      if key !in p && InOrder(a.entry.writes, a.total) {
        OrderedCovers(a);
      } else {
        var start := Start(p, key, a.total);
        StartTracked(p, a, open);
        FillCollects(start, open, a);
        FullIsCovered(Fill(start, a.entry.writes, a.numa), Extended(open, a));
      }
    }
  }

  lemma StartTracked(p: Pending, a: Arrival, open: Option<Collection>)
    requires Incomplete(p) && InRange(a.entry.writes, a.total) && Tracks(p, a.entry.key, open)
    requires Taken(a, a.entry.key, open) && (a.entry.key in p || !InOrder(a.entry.writes, a.total))
    ensures var start := Start(p, a.entry.key, a.total);
            && start.remaining > 0 && |start.slots| == a.total
            && FirstOnes(start.slots, Collection(a.total, if open.Some? then open.value.writes else []))
  {
    if a.entry.key !in p {
      NewSound(a.total);
      SomeSlot(a.entry.writes, a.total);
    }
  }

  lemma SomeSlot(writes: seq<SlotWrite>, total: nat)
    requires InRange(writes, total)
    ensures total > 0 || InOrder(writes, total)
  {
    if writes != [] { assert writes[0].0 < total; }
  }

  /** The worker holds for every key exactly what was collected for it since it was last sealed. */
  lemma {:induction false} OpenIsPending(h: seq<Arrival>, key: BlockKey)
    requires Arrived(h)
    ensures Tracks(PendingAfter(h), key, Open(h, key))
  {
    if h != [] {
      var front, a := h[..|h|-1], h[|h|-1];
      OpenIsPending(front, key);
      if a.entry.key == key { ArrivalTracked(PendingAfter(front), a, Open(front, key)); }
    }
  }

  /**
   An arrival seals its key exactly when it is taken and, with it, every slot has been written since the key was last
   sealed; every slot of the block then holds its first write of that time.
   */
  lemma SealsExactlyCovered(h: seq<Arrival>, m: nat)
    requires Arrived(h) && m < |h|
    ensures Arrived(h[..m+1])
    ensures LastSealed(h[..m+1]).Some? <==>
              Taken(h[m], h[m].entry.key, Open(h[..m], h[m].entry.key)) && Covered(CollectedAt(h, m))
    ensures LastSealed(h[..m+1]).Some? ==> SealsFirst(LastSealed(h[..m+1]).value, CollectedAt(h, m))
  {
    assert h[..m+1][..m] == h[..m];
    OpenIsPending(h[..m], h[m].entry.key);
    ArrivalTracked(PendingAfter(h[..m]), h[m], Open(h[..m], h[m].entry.key));
  }

  /** Arrival `m` sealed this block. */
  ghost predicate SealedAt(h: seq<Arrival>, m: nat, key: BlockKey, b: SealedBlock)
    requires Arrived(h)
  {
    m < |h| && h[m].entry.key == key && Arrived(h[..m+1]) && LastSealed(h[..m+1]) == Some(b)
  }

  lemma {:induction false} SealedByArrival(h: seq<Arrival>, j: nat) returns (m: nat)
    requires Arrived(h) && j < |SealedIn(h)|
    ensures SealedAt(h, m, SealedIn(h)[j].0, SealedIn(h)[j].1)
  {
    var n := |h| - 1;
    if j < |SealedIn(h[..n])| {
      m := SealedByArrival(h[..n], j);
      assert h[..n][..m+1] == h[..m+1];
    } else {
      m := n;
      assert h[..n+1] == h;
    }
  }

  // ------------------------------------------------------------ a batch is a run of arrivals

  ghost function ArrivalsOf(cached: set<BlockKey>, entries: seq<Entry>, total: nat, numa: NumaNode): (h: seq<Arrival>)
    ensures |h| == |entries| && forall i | 0 <= i < |h| :: h[i] == Arrival(cached, entries[i], total, numa)
  {
    seq(|entries|, i requires 0 <= i < |entries| => Arrival(cached, entries[i], total, numa))
  }

  /** The worker's state and output are those of a history. */
  ghost predicate Follows(h: seq<Arrival>, p: Pending, sealed: seq<(BlockKey, SealedBlock)>) {
    Arrived(h) && p == PendingAfter(h) && sealed == SealedIn(h)
  }

  lemma OneMore(h: seq<Arrival>, p: Pending, sealed: seq<(BlockKey, SealedBlock)>, a: Arrival)
    requires Follows(h, p, sealed) && InRange(a.entry.writes, a.total)
    ensures var (after, block) := Process(p, a.cached, a.entry, a.total, a.numa);
            Follows(h + [a], after, sealed + if block.Some? then [(a.entry.key, block.value)] else [])
  {
    assert (h + [a])[..|h|] == h;
  }

  lemma ArrivalsLast(h: seq<Arrival>, cached: set<BlockKey>, entries: seq<Entry>, total: nat, numa: NumaNode)
    requires entries != []
    ensures var n := |entries| - 1;
            h + ArrivalsOf(cached, entries, total, numa) ==
            h + ArrivalsOf(cached, entries[..n], total, numa) + [Arrival(cached, entries[n], total, numa)]
  {
  }

  /** The last entry of a batch. */
  lemma SealedLast(p: Pending, sealed: seq<(BlockKey, SealedBlock)>, cached: set<BlockKey>, entries: seq<Entry>,
                   total: nat, numa: NumaNode)
    requires Incomplete(p) && AllInRange(entries, total) && entries != []
    ensures var e := entries[|entries|-1];
            var (before, some) := ProcessAll(p, cached, entries[..|entries|-1], total, numa);
            var (after, block) := Process(before, cached, e, total, numa);
            var (all, more) := ProcessAll(p, cached, entries, total, numa);
            all == after && sealed + more == sealed + some + if block.Some? then [(e.key, block.value)] else []
  {
    var e := entries[|entries|-1];
    var (before, some) := ProcessAll(p, cached, entries[..|entries|-1], total, numa);
    var block := Process(before, cached, e, total, numa).1;
    Associative(sealed, some, if block.Some? then [(e.key, block.value)] else []);
  }

  lemma {:induction false} BatchFollows(h: seq<Arrival>, p: Pending, sealed: seq<(BlockKey, SealedBlock)>,
                                        cached: set<BlockKey>, entries: seq<Entry>, total: nat, numa: NumaNode)
    requires Follows(h, p, sealed) && AllInRange(entries, total)
    ensures Incomplete(p)
    ensures var (after, more) := ProcessAll(p, cached, entries, total, numa);
            Follows(h + ArrivalsOf(cached, entries, total, numa), after, sealed + more)
  {
    var arrivals := ArrivalsOf(cached, entries, total, numa);
    if entries == [] {
      assert h + arrivals == h;
    } else {
      var n := |entries| - 1;
      var (before, some) := ProcessAll(p, cached, entries[..n], total, numa);
      BatchFollows(h, p, sealed, cached, entries[..n], total, numa);
      ArrivalsLast(h, cached, entries, total, numa);
      OneMore(h + ArrivalsOf(cached, entries[..n], total, numa), before, sealed + some, arrivals[n]);
      SealedLast(p, sealed, cached, entries, total, numa);
    }
  }
}
