/** Sliding-window HyperLogLog with a cached merge of the finished slots. */
module HllTrackerModule {
  import opened Common
  import opened Seqs
  import opened Bits
  import opened HyperLogLog

  datatype WindowSlot = WindowSlot(regs: Registers, start: nat, count: nat)

  /** What a slot was given: the reference for its registers and count. */
  datatype Observed = Observed(start: nat, hashes: seq<Hash>, count: nat)

  const U32_RANGE: nat := 0x1_0000_0000

  // ------------------------------------------------------------ the reference

  function AllHashes(seen: seq<Observed>): seq<Hash> {
    if seen == [] then [] else AllHashes(seen[..|seen|-1]) + seen[|seen|-1].hashes
  }

  function TotalCount(seen: seq<Observed>): nat {
    if seen == [] then 0 else TotalCount(seen[..|seen|-1]) + seen[|seen|-1].count
  }

  /** Hashes and requests are those of each slot, put together in order. */
  lemma SlotsAddUp(seen: seq<Observed>, o: Observed)
    ensures AllHashes([]) == [] && TotalCount([]) == 0
    ensures AllHashes(seen + [o]) == AllHashes(seen) + o.hashes && TotalCount(seen + [o]) == TotalCount(seen) + o.count
  {
    assert (seen + [o])[..|seen|] == seen;
  }

  function Finished(seen: seq<Observed>): seq<Observed> { if seen == [] then [] else seen[..|seen|-1] }

  /** Whole slot lengths since the last slot began, as the code computes them: cut to 32 bits. */
  function Periods(last: nat, now: nat, slot: nat): nat
    requires slot > 0
  {
    DivNonNegative(Age(now, last), slot);
    Age(now, last) / slot % U32_RANGE
  }

  function AlignedStart(seen: seq<Observed>, now: nat, slot: nat): nat
    requires slot > 0
  {
    if seen == [] then now
    else
      var last := seen[|seen|-1].start;
      last + slot * Periods(last, now, slot)
  }

  predicate NeedsSlot(seen: seq<Observed>, now: nat, slot: nat) {
    seen == [] || Age(now, seen[|seen|-1].start) >= slot
  }

  function Recorded(seen: seq<Observed>, hashes: seq<Hash>, total: nat, now: nat, slot: nat): seq<Observed>
    requires slot > 0
  {
    if total == 0 then seen
    else if NeedsSlot(seen, now, slot) then seen + [Observed(AlignedStart(seen, now, slot), hashes, total)]
    else Extended(seen, hashes, total)
  }

  function WithSlot(seen: seq<Observed>, now: nat, slot: nat): (r: seq<Observed>)
    requires slot > 0
    ensures |r| > 0
  {
    if NeedsSlot(seen, now, slot) then seen + [Observed(AlignedStart(seen, now, slot), [], 0)] else seen
  }

  function Extended(seen: seq<Observed>, hashes: seq<Hash>, total: nat): seq<Observed>
    requires seen != []
  {
    var last := seen[|seen|-1];
    seen[..|seen|-1] + [Observed(last.start, last.hashes + hashes, last.count + total)]
  }

  /** Slots younger than the window. */
  function Unexpired(seen: seq<Observed>, now: nat, window: nat): seq<Observed> {
    if seen == [] then []
    else
      var front := Unexpired(seen[..|seen|-1], now, window);
      if Age(now, seen[|seen|-1].start) < window then front + [seen[|seen|-1]] else front
  }

  ghost predicate Ordered(seen: seq<Observed>) { forall i, j | 0 <= i < j < |seen| :: seen[i].start <= seen[j].start }

  ghost predicate StrictlyOrdered(seen: seq<Observed>) {
    forall i, j | 0 <= i < j < |seen| :: seen[i].start < seen[j].start
  }

  ghost predicate Before(seen: seq<Observed>, clock: nat) { forall i | 0 <= i < |seen| :: seen[i].start <= clock }

  // ------------------------------------------------------------ slot starts

  lemma DivBounds(x: nat, n: nat)
    requires n > 0
    ensures x / n >= 0 && n * (x / n) <= x < n * (x / n) + n
  {
    DivNonNegative(x, n);
  }

  /** A new slot never starts before the last one nor after now. */
  lemma AlignedWithin(seen: seq<Observed>, now: nat, slot: nat)
    requires slot > 0 && seen != [] && seen[|seen|-1].start <= now
    ensures seen[|seen|-1].start <= AlignedStart(seen, now, slot) <= now
  {
    var elapsed := now - seen[|seen|-1].start;
    DivBounds(elapsed, slot);
    var p := elapsed / slot;
    MulOrder(slot, p % U32_RANGE, p);
    assert slot * (p % U32_RANGE) >= 0;
  }

  /** The new slot is the one that contains now exactly when the number of slots that passed fits 32 bits. */
  lemma AlignedContainsNow(seen: seq<Observed>, now: nat, slot: nat)
    requires slot > 0 && seen != [] && seen[|seen|-1].start <= now
    ensures now - AlignedStart(seen, now, slot) < slot <==> (now - seen[|seen|-1].start) / slot < U32_RANGE
  {
    var elapsed := now - seen[|seen|-1].start;
    DivBounds(elapsed, slot);
    CutPeriods(elapsed, slot, elapsed / slot);
  }

  /** Cutting `p` periods to 32 bits leaves less than one of them exactly when there is nothing to cut. */
  lemma CutPeriods(elapsed: nat, slot: nat, p: nat)
    requires slot * p <= elapsed < slot * p + slot
    ensures elapsed - slot * (p % U32_RANGE) < slot <==> p < U32_RANGE
  {
    if p >= U32_RANGE {
      assert p % U32_RANGE < p;
      MulGap(slot, p % U32_RANGE, p);
    }
  }

  lemma OpenedOrdered(seen: seq<Observed>, o: Observed, now: nat)
    requires Ordered(seen) && Before(seen, now) && o.start <= now && (seen != [] ==> seen[|seen|-1].start <= o.start)
    ensures Ordered(seen + [o]) && Before(seen + [o], now)
  {
    forall i | 0 <= i < |seen|
      ensures seen[i].start <= o.start
    {
      assert i < |seen| - 1 ==> seen[i].start <= seen[|seen|-1].start;
    }
  }

  lemma RecordedOrdered(seen: seq<Observed>, hashes: seq<Hash>, total: nat, now: nat, slot: nat)
    requires slot > 0 && Ordered(seen) && Before(seen, now)
    ensures Ordered(Recorded(seen, hashes, total, now, slot)) && Before(Recorded(seen, hashes, total, now, slot), now)
  {
    if seen != [] && NeedsSlot(seen, now, slot) { AlignedWithin(seen, now, slot); }
  }

  /**
   Starts stay strictly increasing exactly when the number of slot lengths that have passed is not a multiple of
   2^32: otherwise the truncated product is zero and the new slot gets the start of the last one.
   */
  lemma StrictExactly(seen: seq<Observed>, hashes: seq<Hash>, total: nat, now: nat, slot: nat)
    requires slot > 0 && StrictlyOrdered(seen) && Before(seen, now)
    ensures StrictlyOrdered(Recorded(seen, hashes, total, now, slot)) <==>
              !(total > 0 && seen != [] && NeedsSlot(seen, now, slot)
                && (now - seen[|seen|-1].start) / slot % U32_RANGE == 0)
  {
    var after := Recorded(seen, hashes, total, now, slot);
    if total > 0 && seen != [] && NeedsSlot(seen, now, slot) {
      AlignedWithin(seen, now, slot);
      var last, p := seen[|seen|-1].start, Periods(seen[|seen|-1].start, now, slot);
      assert after[|seen|-1].start == last && after[|seen|].start == last + slot * p;
      if p > 0 {
        MulOrder(slot, 1, p);
        forall i | 0 <= i < |seen| ensures after[i].start < after[|seen|].start { assert seen[i].start <= last; }
      }
    }
  }

  /** After 2^32 slot lengths of silence two slots start at the same instant. */
  lemma StartsCanRepeat(start: nat, hash: Hash)
    ensures !StrictlyOrdered(Recorded([Observed(start, [hash], 1)], [hash], 1, start + U32_RANGE, 1))
  {
    var seen := [Observed(start, [hash], 1)];
    StrictExactly(seen, [hash], 1, start + U32_RANGE, 1);
  }

  /** Recording adds exactly the given hashes and requests, unless there were no requests. */
  lemma RecordedAdds(seen: seq<Observed>, hashes: seq<Hash>, total: nat, now: nat, slot: nat)
    requires slot > 0
    ensures var after := Recorded(seen, hashes, total, now, slot);
            && TotalCount(after) == TotalCount(seen) + total
            && AllHashes(after) == AllHashes(seen) + if total == 0 then [] else hashes
  {
    var after := Recorded(seen, hashes, total, now, slot);
    if total > 0 {
      var front := after[..|after|-1];
      if NeedsSlot(seen, now, slot) {
        assert front == seen;
      } else {
        assert front == seen[..|seen|-1];
        Associative(AllHashes(front), seen[|seen|-1].hashes, hashes);
      }
    }
  }

  /**
   The requests go into the newest slot while that is younger than a slot length, and into a new one otherwise; the new
   slot starts a whole number of slot lengths after the last one and contains `now`, unless 2^32 or more have passed.
   */
  ghost predicate Places(before: seq<Observed>, after: seq<Observed>, hashes: seq<Hash>, total: nat, now: nat,
                         slot: nat)
    requires slot > 0
  {
    && after != []
    && var newest := after[|after|-1];
    && newest.start <= now
    && if before == [] then
         after == [Observed(now, hashes, total)]
       else
         var last := before[|before|-1];
         if now < last.start + slot then
           && after[..|after|-1] == before[..|before|-1] && newest.start == last.start
           && newest.hashes == last.hashes + hashes && newest.count == last.count + total
         else
           && after[..|after|-1] == before && newest.hashes == hashes && newest.count == total
           && (exists k: nat :: newest.start == last.start + slot * k)
           && ((now - last.start) / slot < U32_RANGE ==> now < newest.start + slot)
  }

  lemma RecordedPlaces(seen: seq<Observed>, hashes: seq<Hash>, total: nat, now: nat, slot: nat)
    requires slot > 0 && total > 0 && Before(seen, now)
    ensures Places(seen, Recorded(seen, hashes, total, now, slot), hashes, total, now, slot)
  {
    var after := Recorded(seen, hashes, total, now, slot);
    if seen != [] {
      var last := seen[|seen|-1];
      assert last.start <= now;
      if now >= last.start + slot {
        assert after[..|after|-1] == seen;
        AlignedWithin(seen, now, slot);
        AlignedContainsNow(seen, now, slot);
        assert after[|after|-1].start == last.start + slot * Periods(last.start, now, slot);
      }
    }
  }

  // ------------------------------------------------------------ expiry

  /** The slots as old as the window are gone, and they were the oldest ones. */
  ghost predicate Expires(before: seq<Observed>, after: seq<Observed>, now: nat, window: nat) {
    exists k | 0 <= k <= |before| :: after == before[k..] && CutAt(before, k, now, window)
  }

  ghost predicate CutAt(before: seq<Observed>, k: nat, now: nat, window: nat) {
    forall i | 0 <= i < |before| :: i < k <==> before[i].start + window <= now
  }

  lemma ExpiresExactly(seen: seq<Observed>, now: nat, window: nat)
    requires Ordered(seen) && Before(seen, now)
    ensures Expires(seen, Unexpired(seen, now, window), now, window)
  {
    var k := FirstYoung(seen, now, window, 0);
    DropMany(seen, now, window, k);
    AllYoung(seen[k..], now, window);
  }

  lemma {:induction false} FirstYoung(seen: seq<Observed>, now: nat, window: nat, from: nat) returns (k: nat)
    requires Ordered(seen) && from <= |seen| && forall i | 0 <= i < from :: seen[i].start + window <= now
    ensures k <= |seen| && CutAt(seen, k, now, window)
    decreases |seen| - from
  {
    k := from;
    if from < |seen| && seen[from].start + window <= now { k := FirstYoung(seen, now, window, from + 1); }
  }

  lemma {:induction false} DropMany(seen: seq<Observed>, now: nat, window: nat, k: nat)
    requires k <= |seen| && forall i | 0 <= i < k :: seen[i].start + window <= now
    ensures Unexpired(seen[k..], now, window) == Unexpired(seen, now, window)
  {
    if k > 0 {
      DropMany(seen, now, window, k - 1);
      assert seen[k-1..][1..] == seen[k..];
      DropOldest(seen[k-1..], now, window);
    } else {
      assert seen[k..] == seen;
    }
  }

  lemma {:induction false} AllYoung(seen: seq<Observed>, now: nat, window: nat)
    requires forall i | 0 <= i < |seen| :: Age(now, seen[i].start) < window
    ensures Unexpired(seen, now, window) == seen
  {
    if seen != [] {
      AllYoung(seen[..|seen|-1], now, window);
      assert seen == seen[..|seen|-1] + [seen[|seen|-1]];
    }
  }

  lemma {:induction false} DropOldest(seen: seq<Observed>, now: nat, window: nat)
    requires seen != [] && Age(now, seen[0].start) >= window
    ensures Unexpired(seen, now, window) == Unexpired(seen[1..], now, window)
  {
    if |seen| > 1 {
      DropOldest(seen[..|seen|-1], now, window);
      assert seen[..|seen|-1][1..] == seen[1..][..|seen|-2];
    }
  }

  lemma {:induction false} SurvivorsYoung(seen: seq<Observed>, now: nat, window: nat)
    ensures forall x | x in Unexpired(seen, now, window) :: Age(now, x.start) < window
  {
    if seen != [] { SurvivorsYoung(seen[..|seen|-1], now, window); }
  }

  class HllTracker {
    const slotDuration: nat
    const windowDuration: nat
    const b: nat
    var slots: seq<WindowSlot>
    var merged: Registers
    var dirty: bool
    ghost var seen: seq<Observed>
    ghost var clock: nat

    /** Slots hold what they were given; a clean cache is the merge of all slots but the newest. */
    ghost predicate Valid()
      reads this
    {
      && ValidBits(b) && slotDuration > 0
      && AllHold(slots, seen, b)
      && Ordered(seen) && Before(seen, clock)
      && |merged| == Pow2(b) && (!dirty ==> merged == Fed(AllHashes(Finished(seen)), b))
    }

    constructor (slotDuration: nat, windowDuration: nat, b: nat)
      requires ValidBits(b) && slotDuration > 0
      ensures Valid() && seen == [] && clock == 0
      ensures this.slotDuration == slotDuration && this.windowDuration == windowDuration && this.b == b
    {
      this.slotDuration, this.windowDuration, this.b := slotDuration, windowDuration, b;
      slots, merged, dirty, seen, clock := [], Empty(b), false, [], 0;
    }

    method Record(hashes: seq<Hash>, total: nat, now: nat)
      requires Valid() && clock <= now
      modifies this
      ensures Valid() && clock == now && seen == Recorded(old(seen), hashes, total, now, slotDuration)
      ensures if total == 0 then seen == old(seen) else Places(old(seen), seen, hashes, total, now, slotDuration)
    {
      clock := now;
      if total == 0 { return; }
      RecordedPlaces(seen, hashes, total, now, slotDuration);
      RotateIfNeeded(now);
      AddToNewest(hashes, total);
      RecordedBy(old(seen), hashes, total, now, slotDuration);
    }

    /** The newest slot is not part of the cache, so the cache stays as good as it was. */
    method AddToNewest(hashes: seq<Hash>, total: nat)
      requires Valid() && |seen| > 0
      modifies this`slots, this`seen
      ensures Valid() && seen == Extended(old(seen), hashes, total)
    {
      var next := ExtendNewest(slots, seen, hashes, total, b);
      ExtendedOrdered(seen, hashes, total, clock);
      Replace(next, Extended(seen, hashes, total));
    }

    method Replace(next: seq<WindowSlot>, ghost after: seq<Observed>)
      requires Valid() && AllHold(next, after, b) && Ordered(after) && Before(after, clock)
      requires Finished(after) == Finished(seen)
      modifies this`slots, this`seen
      ensures Valid() && slots == next && seen == after
    {
      slots, seen := next, after;
    }

    method RotateIfNeeded(now: nat)
      requires Valid() && clock == now
      modifies this
      ensures Valid() && clock == now && seen == WithSlot(old(seen), now, slotDuration)
    {
      assert |slots| > 0 ==> Holds(slots[|slots|-1], seen[|seen|-1], b);
      if |slots| == 0 || Age(now, slots[|slots|-1].start) >= slotDuration { Rotate(now); }
    }

    method NextStart(now: nat) returns (start: nat)
      requires Valid()
      ensures start == AlignedStart(seen, now, slotDuration)
    {
      start := now;
      if |slots| > 0 {
        var last := slots[|slots|-1].start;
        assert Holds(slots[|slots|-1], seen[|seen|-1], b);
        start := last + slotDuration * Periods(last, now, slotDuration);
      }
    }

    /** Opens the slot that `now` falls into; the cache no longer covers all finished slots. */
    method Rotate(now: nat)
      requires Valid() && clock == now && NeedsSlot(seen, now, slotDuration)
      modifies this
      ensures Valid() && clock == now && seen == old(seen)
              + [Observed(AlignedStart(old(seen), now, slotDuration), [], 0)]
    {
      var start := NextStart(now);
      if |seen| > 0 { AlignedWithin(seen, now, slotDuration); }
      OpenSlot(start);
    }

    method OpenSlot(start: nat)
      requires Valid() && start <= clock && (|seen| > 0 ==> seen[|seen|-1].start <= start)
      modifies this`slots, this`seen, this`dirty
      ensures Valid() && dirty && seen == old(seen) + [Observed(start, [], 0)]
    {
      OpenedOrdered(seen, Observed(start, [], 0), clock);
      HoldOneMore(slots, seen, WindowSlot(Empty(b), start, 0), Observed(start, [], 0), b);
      dirty := true;
      slots := slots + [WindowSlot(Empty(b), start, 0)];
      seen := seen + [Observed(start, [], 0)];
    }

    /** Drops expired slots, refreshes the cache, and reports what the estimate is made from. */
    method Metric(now: nat) returns (regs: Option<Registers>, total: nat, count: nat)
      requires Valid() && clock <= now
      modifies this
      ensures Valid() && clock == now && seen == Unexpired(old(seen), now, windowDuration)
      ensures Expires(old(seen), seen, now, windowDuration)
      ensures regs == if seen == [] then None else Some(Fed(AllHashes(seen), b))
      ensures total == TotalCount(seen) && count == |seen|
    {
      clock := now;
      Expire(now);
      EnsureMerged();
      regs, total, count := Report();
    }

    /** What is left when the cache is fresh. */
    method Report() returns (regs: Option<Registers>, total: nat, count: nat)
      requires Valid() && !dirty
      ensures regs == if seen == [] then None else Some(Fed(AllHashes(seen), b))
      ensures total == TotalCount(seen) && count == |seen|
    {
      regs := None;
      if |slots| > 0 {
        UnionIsFed(AllHashes(Finished(seen)), seen[|seen|-1].hashes, b);
        regs := Some(Union(merged, slots[|slots|-1].regs));
      }
      total := SumCounts(slots, seen, b);
      count := |slots|;
    }

    method Expire(now: nat)
      requires Valid() && clock == now
      modifies this
      ensures Valid() && clock == now && seen == Unexpired(old(seen), now, windowDuration)
      ensures Expires(old(seen), seen, now, windowDuration)
    {
      PopExpired(now);
      ExpiresExactly(old(seen), now, windowDuration);
    }

    method PopExpired(now: nat)
      requires Valid() && clock == now
      modifies this
      ensures Valid() && clock == now && seen == Unexpired(old(seen), now, windowDuration)
    {
      while |slots| > 0 && Age(now, slots[0].start) >= windowDuration
        invariant Valid() && clock == now
        invariant Unexpired(seen, now, windowDuration) == Unexpired(old(seen), now, windowDuration)
        decreases |slots|
      {
        DropOldest(seen, now, windowDuration);
        slots, seen, dirty := slots[1..], seen[1..], true;
      }
      AllYoung(seen, now, windowDuration);
    }

    method EnsureMerged()
      requires Valid()
      modifies this`merged, this`dirty
      ensures Valid() && !dirty
    {
      if !dirty { return; }
      var finished := if |slots| == 0 then 0 else |slots| - 1;
      assert Finished(seen) == seen[..finished];
      var fresh' := MergeSlots(slots, seen, finished, b);
      merged, dirty := fresh', false;
    }
  }

  /** Rotating if needed and then adding to the newest slot is what recording means. */
  lemma RecordedBy(seen: seq<Observed>, hashes: seq<Hash>, total: nat, now: nat, slot: nat)
    requires slot > 0 && total > 0
    ensures Extended(WithSlot(seen, now, slot), hashes, total) == Recorded(seen, hashes, total, now, slot)
  {
    assert [] + hashes == hashes;
    if NeedsSlot(seen, now, slot) {
      var rotated := WithSlot(seen, now, slot);
      assert rotated[..|rotated|-1] == seen;
    }
  }

  ghost predicate Holds(slot: WindowSlot, o: Observed, b: nat)
    requires ValidBits(b)
  {
    slot == WindowSlot(Fed(o.hashes, b), o.start, o.count)
  }

  ghost predicate AllHold(slots: seq<WindowSlot>, seen: seq<Observed>, b: nat)
    requires ValidBits(b)
  {
    |slots| == |seen| && forall i | 0 <= i < |slots| :: Holds(slots[i], seen[i], b)
  }

  lemma HoldOneMore(slots: seq<WindowSlot>, seen: seq<Observed>, slot: WindowSlot, o: Observed, b: nat)
    requires ValidBits(b) && AllHold(slots, seen, b) && Holds(slot, o, b)
    ensures AllHold(slots + [slot], seen + [o], b)
  {
  }

  method ExtendNewest(slots: seq<WindowSlot>, ghost seen: seq<Observed>, hashes: seq<Hash>, total: nat, b: nat)
    returns (next: seq<WindowSlot>)
    requires ValidBits(b) && AllHold(slots, seen, b) && seen != []
    ensures AllHold(next, Extended(seen, hashes, total), b)
  {
    var slot := slots[|slots|-1];
    assert Holds(slot, seen[|seen|-1], b);
    var regs := InsertAll(slot.regs, hashes, seen[|seen|-1].hashes, b);
    ExtendedHolds(slots, seen, hashes, total, regs, b);
    next := slots[..|slots|-1] + [WindowSlot(regs, slot.start, slot.count + total)];
  }

  lemma ExtendedHolds(slots: seq<WindowSlot>, seen: seq<Observed>, hashes: seq<Hash>, total: nat, regs: Registers,
                      b: nat)
    requires ValidBits(b) && AllHold(slots, seen, b) && seen != []
    requires regs == Fed(seen[|seen|-1].hashes + hashes, b)
    ensures var last := slots[|slots|-1];
            AllHold(slots[..|slots|-1] + [WindowSlot(regs, last.start, last.count + total)],
                    Extended(seen, hashes, total), b)
  {
    var n := |seen| - 1;
    assert Holds(slots[n], seen[n], b);
    assert AllHold(slots[..n], seen[..n], b);
    HoldOneMore(slots[..n], seen[..n], WindowSlot(regs, slots[n].start, slots[n].count + total),
                Observed(seen[n].start, seen[n].hashes + hashes, seen[n].count + total), b);
  }

  lemma ExtendedOrdered(seen: seq<Observed>, hashes: seq<Hash>, total: nat, clock: nat)
    requires seen != [] && Ordered(seen) && Before(seen, clock)
    ensures var after := Extended(seen, hashes, total);
            Ordered(after) && Before(after, clock) && Finished(after) == Finished(seen)
  {
    var after := Extended(seen, hashes, total);
    assert |after| == |seen| && forall i | 0 <= i < |seen| :: after[i].start == seen[i].start;
  }

  lemma FedOneMore(hashes: seq<Hash>, h: Hash, b: nat)
    requires ValidBits(b)
    ensures Fed(hashes + [h], b) == Raised(Fed(hashes, b), h, b)
  {
    assert (hashes + [h])[..|hashes|] == hashes;
  }

  method InsertAll(start: Registers, hashes: seq<Hash>, ghost before: seq<Hash>, b: nat) returns (regs: Registers)
    requires ValidBits(b) && start == Fed(before, b)
    ensures regs == Fed(before + hashes, b)
  {
    regs := start;
    ghost var given := before;
    for i := 0 to |hashes|
      invariant given == before + hashes[..i] && regs == Fed(given, b)
    {
      FedOneMore(given, hashes[i], b);
      regs := Insert(regs, hashes[i], b);
      TakeNext(before, hashes, i);
      given := given + [hashes[i]];
    }
    assert hashes[..|hashes|] == hashes;
  }

  method MergeSlots(slots: seq<WindowSlot>, ghost seen: seq<Observed>, n: nat, b: nat) returns (regs: Registers)
    requires ValidBits(b) && AllHold(slots, seen, b) && n <= |slots|
    ensures regs == Fed(AllHashes(seen[..n]), b)
  {
    regs := Empty(b);
    for i := 0 to n
      invariant regs == Fed(AllHashes(seen[..i]), b)
    {
      assert seen[..i+1][..i] == seen[..i];
      UnionIsFed(AllHashes(seen[..i]), seen[i].hashes, b);
      regs := Merge(regs, slots[i].regs);
    }
  }

  method SumCounts(slots: seq<WindowSlot>, ghost seen: seq<Observed>, b: nat) returns (total: nat)
    requires ValidBits(b) && AllHold(slots, seen, b)
    ensures total == TotalCount(seen)
  {
    total := 0;
    for i := 0 to |slots|
      invariant total == TotalCount(seen[..i])
    {
      assert seen[..i+1][..i] == seen[..i];
      total := total + slots[i].count;
    }
    assert seen[..|seen|] == seen;
  }
}
