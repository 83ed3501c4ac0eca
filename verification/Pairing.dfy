/** Source/target pairing for backups: rendezvous hashing with bounded load, for any score function. */
module Pairing {
  import opened Common
  import opened Directory
  import opened Seqs

  type Pair = (Node, Node)

  function Indices(n: nat): (xs: seq<nat>) { seq(n, i => i) }

  lemma {:induction false} CountIndices(n: nat, i: nat)
    ensures CountIf(Indices(n), Is(i)) == if i < n then 1 else 0
  {
    if n > 0 {
      var last: nat := n - 1;
      CountIndices(last, i);
      assert Indices(n) == Indices(last) + [last];
      CountAppend<nat>(Indices(last), [last], Is(i));
      CountOne<nat>(last, Is(i));
    }
  }

  // ------------------------------------------------------------ the algorithm, as functions

  /** `w(item, bin)` is the score of a pairing; `load[bin]` lists the items of a bin. */
  type Weight = (nat, nat) -> nat

  type Bins = seq<seq<nat>>

  /** Bins by falling score, equal scores in index order. */
  function Ranked(n: nat, item: nat, w: Weight): seq<nat> {
    SortBy(Indices(n), ByScore(item, w))
  }

  function ByScore(item: nat, w: Weight): (nat, nat) -> bool { (a: nat, b: nat) => w(item, a) > w(item, b) }

  function FirstWithRoom(ranked: seq<nat>, load: Bins, capacity: nat): Option<nat> {
    if ranked == [] then None
    else if ranked[0] < |load| && |load[ranked[0]]| < capacity then Some(ranked[0])
    else FirstWithRoom(ranked[1..], load, capacity)
  }

  function Put(load: Bins, bin: nat, item: nat): Bins
    requires bin < |load|
  {
    load[bin := load[bin] + [item]]
  }

  /** Give `item` to its best bin with room; no bin has room only if the total capacity is used up. */
  function AssignOne(load: Bins, item: nat, w: Weight, capacity: nat): Bins {
    var bin := FirstWithRoom(Ranked(|load|, item, w), load, capacity);
    if bin.Some? && bin.value < |load| then Put(load, bin.value, item) else load
  }

  function EmptyBins(n: nat): Bins { if n == 0 then [] else [[]] + EmptyBins(n - 1) }

  function Assign(items: seq<nat>, n: nat, w: Weight, capacity: nat): Bins {
    if items == [] then EmptyBins(n)
    else AssignOne(Assign(items[..|items|-1], n, w, capacity), items[|items|-1], w, capacity)
  }

  function FirstEmpty(load: Bins): (i: nat)
    ensures i <= |load|
    ensures i < |load| ==> load[i] == []
    ensures forall j | 0 <= j < i :: load[j] != []
  {
    if load == [] || load[0] == [] then 0 else 1 + FirstEmpty(load[1..])
  }

  /** The most loaded bin, the first of equals. */
  function Donor(load: Bins): (d: nat)
    requires load != []
    ensures d < |load| && forall j | 0 <= j < |load| :: |load[j]| <= |load[d]|
    ensures forall j | 0 <= j < d :: |load[j]| < |load[d]|
  {
    if |load| == 1 then 0
    else
      var d := Donor(load[..|load|-1]);
      if |load[|load|-1]| > |load[d]| then |load| - 1 else d
  }

  /** The item that scores best for `bin`, the last of equals. */
  function BestItem(items: seq<nat>, bin: nat, w: Weight): (p: nat)
    requires items != []
    ensures p < |items| && forall j | 0 <= j < |items| :: w(items[j], bin) <= w(items[p], bin)
    ensures forall j | p < j < |items| :: w(items[j], bin) < w(items[p], bin)
  {
    if |items| == 1 then 0
    else
      var p := BestItem(items[..|items|-1], bin, w);
      if w(items[|items|-1], bin) >= w(items[p], bin) then |items| - 1 else p
  }

  function Move(load: Bins, donor: nat, position: nat, empty: nat): Bins
    requires donor < |load| && empty < |load| && position < |load[donor]|
  {
    var item := load[donor][position];
    Put(load[donor := load[donor][..position] + load[donor][position+1..]], empty, item)
  }

  ghost function Empties(load: Bins): nat { CountIf(load, IsEmpty()) }

  ghost function IsEmpty(): seq<nat> -> bool { b => b == [] }

  /** Fill empty bins from the most loaded one until none is empty (or nothing can be spared). */
  function Rebalance(load: Bins, w: Weight): Bins
    decreases Empties(load)
  {
    var empty := FirstEmpty(load);
    if empty == |load| || |load[Donor(load)]| <= 1 then load
    else
      var donor := Donor(load);
      var position := BestItem(load[donor], empty, w);
      MoveFillsOne(load, donor, position, empty);
      Rebalance(Move(load, donor, position, empty), w)
  }

  lemma MoveFillsOne(load: Bins, donor: nat, position: nat, empty: nat)
    requires donor < |load| && empty < |load| && position < |load[donor]|
    requires load[empty] == [] && |load[donor]| > 1
    ensures Empties(Move(load, donor, position, empty)) == Empties(load) - 1
  {
    var kept := load[donor][..position] + load[donor][position+1..];
    CountUpdate(load, donor, kept, IsEmpty());
    CountUpdate(load[donor := kept], empty, [load[donor][position]], IsEmpty());
    assert load[donor := kept][empty] + [load[donor][position]] == [load[donor][position]];
  }

  // ------------------------------------------------------------ every item once, every bin within bounds

  function Flat(load: Bins): seq<nat> {
    if load == [] then [] else load[0] + Flat(load[1..])
  }

  lemma {:induction false} FlatUpdate(load: Bins, bin: nat, members: seq<nat>, p: nat -> bool)
    requires bin < |load|
    ensures CountIf(Flat(load[bin := members]), p) ==
            CountIf(Flat(load), p) - CountIf(load[bin], p) + CountIf(members, p)
  {
    var after := load[bin := members];
    CountAppend(load[0], Flat(load[1..]), p);
    CountAppend(after[0], Flat(after[1..]), p);
    if bin > 0 {
      assert after[1..] == load[1..][bin-1 := members];
      FlatUpdate(load[1..], bin - 1, members, p);
    } else {
      assert after[1..] == load[1..];
    }
  }

  lemma PutCounts(load: Bins, bin: nat, item: nat, p: nat -> bool)
    requires bin < |load|
    ensures CountIf(Flat(Put(load, bin, item)), p) == CountIf(Flat(load), p) + CountIf([item], p)
  {
    FlatUpdate(load, bin, load[bin] + [item], p);
    CountAppend(load[bin], [item], p);
  }

  lemma MoveCounts(load: Bins, donor: nat, position: nat, empty: nat, p: nat -> bool)
    requires donor < |load| && empty < |load| && position < |load[donor]|
    ensures CountIf(Flat(Move(load, donor, position, empty)), p) == CountIf(Flat(load), p)
  {
    var members, item := load[donor], load[donor][position];
    var kept := members[..position] + members[position+1..];
    FlatUpdate(load, donor, kept, p);
    PutCounts(load[donor := kept], empty, item, p);
    assert members == members[..position] + [item] + members[position+1..];
    CountAppend(members[..position] + [item], members[position+1..], p);
    CountAppend(members[..position], [item], p);
    CountAppend(members[..position], members[position+1..], p);
  }

  ghost predicate Within(load: Bins, capacity: nat) { forall b | 0 <= b < |load| :: |load[b]| <= capacity }

  lemma {:induction false} FlatFull(load: Bins, capacity: nat)
    requires forall b | 0 <= b < |load| :: |load[b]| >= capacity
    ensures |Flat(load)| >= capacity * |load|
  {
    if load != [] {
      FlatFull(load[1..], capacity);
      assert capacity * |load| == capacity + capacity * |load[1..]|;
    }
  }

  lemma {:induction false} FlatThin(load: Bins)
    requires Within(load, 1)
    ensures |Flat(load)| <= |load|
    ensures FirstEmpty(load) < |load| ==> |Flat(load)| < |load|
  {
    if load != [] { FlatThin(load[1..]); }
  }

  lemma {:induction false} RoomFound(ranked: seq<nat>, load: Bins, capacity: nat, bin: nat)
    requires bin in ranked && bin < |load| && |load[bin]| < capacity
    ensures var r := FirstWithRoom(ranked, load, capacity);
            r.Some? && r.value < |load| && |load[r.value]| < capacity
  {
    if ranked[0] != bin { RoomFound(ranked[1..], load, capacity, bin); }
  }

  lemma {:induction false} RoomIsFirst(ranked: seq<nat>, load: Bins, capacity: nat, bin: nat)
    requires bin in ranked && bin < |load| && |load[bin]| < capacity
    ensures exists i, j | 0 <= i <= j < |ranked| ::
              Some(ranked[i]) == FirstWithRoom(ranked, load, capacity) && ranked[j] == bin
  {
    if Some(ranked[0]) == FirstWithRoom(ranked, load, capacity) {
      var j :| 0 <= j < |ranked| && ranked[j] == bin;
    } else {
      RoomIsFirst(ranked[1..], load, capacity, bin);
      var i, j :| 0 <= i <= j < |ranked[1..]| && Some(ranked[1..][i]) == FirstWithRoom(ranked[1..], load, capacity)
          && ranked[1..][j] == bin;
      assert ranked[i+1] == ranked[1..][i] && ranked[j+1] == bin;
    }
  }

  lemma RankedHasAll(n: nat, item: nat, w: Weight, bin: nat)
    requires bin < n
    ensures bin in Ranked(n, item, w)
  {
    CountSort(Indices(n), ByScore(item, w), Is(bin));
    CountIndices(n, bin);
    CountPositive(Ranked(n, item, w), Is(bin));
  }

  /** While capacity is left, the `expect` on a bin with room cannot fail, and the item lands in one bin. */
  lemma AssignOneSound(load: Bins, item: nat, w: Weight, capacity: nat, p: nat -> bool)
    requires Within(load, capacity) && |Flat(load)| < |load| * capacity
    ensures FirstWithRoom(Ranked(|load|, item, w), load, capacity).Some?
    ensures var after := AssignOne(load, item, w, capacity);
            && |after| == |load| && Within(after, capacity)
            && CountIf(Flat(after), p) == CountIf(Flat(load), p) + CountIf([item], p)
            && |Flat(after)| == |Flat(load)| + 1
  {
    var bin := RoomLeft(load, capacity);
    RankedHasAll(|load|, item, w, bin);
    RoomFound(Ranked(|load|, item, w), load, capacity, bin);
    var chosen := FirstWithRoom(Ranked(|load|, item, w), load, capacity).value;
    PutCounts(load, chosen, item, p);
    PutCounts(load, chosen, item, Any<nat>());
    CountAll<nat>(Flat(load));
    CountAll<nat>(Flat(Put(load, chosen, item)));
    CountOne<nat>(item, Any<nat>());
  }

  lemma {:induction false} AssignSound(items: seq<nat>, n: nat, w: Weight, capacity: nat, p: nat -> bool)
    requires |items| <= n * capacity
    ensures var load := Assign(items, n, w, capacity);
            && |load| == n && Within(load, capacity)
            && CountIf(Flat(load), p) == CountIf(items, p)
            && |Flat(load)| == |items|
  {
    if items == [] {
      FlatEmpty(n, capacity);
    } else {
      var last := items[|items|-1];
      AssignSound(items[..|items|-1], n, w, capacity, p);
      AssignOneSound(Assign(items[..|items|-1], n, w, capacity), last, w, capacity, p);
      assert items == items[..|items|-1] + [last];
      CountAppend(items[..|items|-1], [last], p);
    }
  }

  lemma {:induction false} FlatEmpty(n: nat, capacity: nat)
    ensures Flat(EmptyBins(n)) == [] && |EmptyBins(n)| == n && Within(EmptyBins(n), capacity)
  {
    if n > 0 { FlatEmpty(n - 1, capacity); }
  }

  lemma RoomLeft(load: Bins, capacity: nat) returns (bin: nat)
    requires |Flat(load)| < |load| * capacity
    ensures bin < |load| && |load[bin]| < capacity
  {
    if b :| 0 <= b < |load| && |load[b]| < capacity {
      bin := b;
    } else {
      FlatFull(load, capacity);
      assert false;
    }
  }

  /** Rebalancing loses no item, keeps the capacity, and leaves no bin empty: its early exit is never taken. */
  lemma {:induction false} RebalanceSound(load: Bins, w: Weight, capacity: nat, p: nat -> bool)
    requires Within(load, capacity) && 1 <= capacity && 1 <= |load| <= |Flat(load)|
    ensures var after := Rebalance(load, w);
            && |after| == |load| && Within(after, capacity)
            && (forall b | 0 <= b < |after| :: after[b] != [])
            && CountIf(Flat(after), p) == CountIf(Flat(load), p)
    decreases Empties(load)
  {
    var empty := FirstEmpty(load);
    if empty < |load| {
      var donor := Donor(load);
      if |load[donor]| <= 1 {
        FlatThin(load);
        assert false;
      }
      var position := BestItem(load[donor], empty, w);
      var moved := Move(load, donor, position, empty);
      MoveFillsOne(load, donor, position, empty);
      MoveCounts(load, donor, position, empty, p);
      MoveCounts(load, donor, position, empty, Any<nat>());
      CountAll<nat>(Flat(load));
      CountAll<nat>(Flat(moved));
      RebalanceSound(moved, w, capacity, p);
    }
  }

  // ------------------------------------------------------------ from indices to node names

  type Link = (nat, nat)  // (bin, item)

  function Row(bin: nat, members: seq<nat>): seq<Link> {
    if members == [] then [] else Row(bin, members[..|members|-1]) + [(bin, members[|members|-1])]
  }

  function Links(load: Bins): seq<Link> {
    if load == [] then [] else Links(load[..|load|-1]) + Row(|load| - 1, load[|load|-1])
  }

  function Capacity(items: nat, bins: nat): nat
    requires bins > 0
  {
    (items + bins - 1) / bins
  }

  /** The smaller side provides the bins. */
  function BinsOf(sources: seq<Node>, targets: seq<Node>): seq<Node> {
    if |sources| <= |targets| then sources else targets
  }

  function ItemsOf(sources: seq<Node>, targets: seq<Node>): seq<Node> {
    if |sources| <= |targets| then targets else sources
  }

  function WeighOne(sources: seq<Node>, targets: seq<Node>, score: (Node, Node) -> nat, item: nat, bin: nat): nat {
    var bins, items := BinsOf(sources, targets), ItemsOf(sources, targets);
    if item >= |items| || bin >= |bins| then 0
    else if |sources| <= |targets| then score(bins[bin], items[item]) else score(items[item], bins[bin])
  }

  function Weigh(sources: seq<Node>, targets: seq<Node>, score: (Node, Node) -> nat): Weight {
    (item: nat, bin: nat) => WeighOne(sources, targets, score, item, bin)
  }

  function ByName(names: seq<Node>): (nat, nat) -> bool {
    (a: nat, b: nat) => a < |names| && b < |names| && NameLess(names[a], names[b])
  }

  function FinalLoad(sources: seq<Node>, targets: seq<Node>, score: (Node, Node) -> nat): Bins
    requires sources != [] && targets != []
  {
    var bins, items := BinsOf(sources, targets), ItemsOf(sources, targets);
    var w := Weigh(sources, targets, score);
    Rebalance(Assign(SortBy(Indices(|items|), ByName(items)), |bins|, w, Capacity(|items|, |bins|)), w)
  }

  function NameOne(sources: seq<Node>, targets: seq<Node>, l: Link): Pair {
    var bins, items := BinsOf(sources, targets), ItemsOf(sources, targets);
    if l.0 >= |bins| || l.1 >= |items| then ("", "")
    else if |sources| <= |targets| then (bins[l.0], items[l.1]) else (items[l.1], bins[l.0])
  }

  function Named(sources: seq<Node>, targets: seq<Node>): Link -> Pair {
    (l: Link) => NameOne(sources, targets, l)
  }

  function PairLess(): (Pair, Pair) -> bool {
    (p: Pair, q: Pair) => NameLess(p.0, q.0) || (p.0 == q.0 && NameLess(p.1, q.1))
  }

  function Pairs(sources: seq<Node>, targets: seq<Node>, score: (Node, Node) -> nat): seq<Pair> {
    if sources == [] || targets == [] then []
    else SortBy(MapAll(Links(FinalLoad(sources, targets, score)), Named(sources, targets)), PairLess())
  }

  lemma CapacityCovers(items: nat, bins: nat)
    requires 0 < bins <= items
    ensures items <= bins * Capacity(items, bins) && Capacity(items, bins) >= 1
  {
  }

  method AssignItems(order: seq<nat>, n: nat, w: Weight, capacity: nat) returns (load: Bins)
    requires |order| <= n * capacity
    ensures load == Assign(order, n, w, capacity)
  {
    load := EmptyBins(n);
    for i := 0 to |order|
      invariant load == Assign(order[..i], n, w, capacity)
    {
      assert order[..i+1][..i] == order[..i];
      AssignSound(order[..i], n, w, capacity, Any<nat>());
      AssignOneSound(load, order[i], w, capacity, Any<nat>());
      var bin := FirstWithRoom(Ranked(n, order[i], w), load, capacity);
      RoomChosen(Ranked(n, order[i], w), load, capacity);
      load := Put(load, bin.value, order[i]);
    }
    assert order[..|order|] == order;
  }

  method FillEmptyBins(start: Bins, w: Weight) returns (load: Bins)
    requires |start| <= |Flat(start)|
    ensures load == Rebalance(start, w)
  {
    load := start;
    while FirstEmpty(load) < |load|
      invariant |load| == |start| && |start| <= |Flat(load)|
      invariant Rebalance(load, w) == Rebalance(start, w)
      decreases Empties(load)
    {
      var empty, donor := FirstEmpty(load), Donor(load);
      DonorCanSpare(load);
      var position := BestItem(load[donor], empty, w);
      MoveFillsOne(load, donor, position, empty);
      MoveKeepsSize(load, donor, position, empty);
      load := Move(load, donor, position, empty);
    }
  }

  method ListLinks(load: Bins) returns (found: seq<Link>)
    ensures found == Links(load)
  {
    found := [];
    for bin := 0 to |load|
      invariant found == Links(load[..bin])
    {
      var members := load[bin];
      for k := 0 to |members|
        invariant found == Links(load[..bin]) + Row(bin, members[..k])
      {
        assert members[..k+1][..k] == members[..k];
        found := found + [(bin, members[k])];
      }
      assert members[..|members|] == members;
      assert load[..bin+1][..bin] == load[..bin];
    }
    assert load[..|load|] == load;
  }

  /** The loops compute exactly this function; neither `expect` nor the early exit is reached. */
  method ComputePairing(sources: seq<Node>, targets: seq<Node>, score: (Node, Node) -> nat) returns (pairs: seq<Pair>)
    ensures pairs == Pairs(sources, targets, score)
    ensures InNameOrder(pairs) && (sources == [] || targets == [] ==> pairs == [])
    ensures Distinct(sources) && Distinct(targets) && sources != [] && targets != [] ==>
              PairedUp(sources, targets, score, pairs)
  {
    if sources == [] || targets == [] {
      return [];
    }
    var bins, items := BinsOf(sources, targets), ItemsOf(sources, targets);
    var w, capacity := Weigh(sources, targets, score), Capacity(|items|, |bins|);
    var order := SortBy(Indices(|items|), ByName(items));
    CountSort(Indices(|items|), ByName(items), Any<nat>());
    CapacityCovers(|items|, |bins|);
    var load := AssignItems(order, |bins|, w, capacity);
    AssignSound(order, |bins|, w, capacity, Any<nat>());
    load := FillEmptyBins(load, w);
    var found := ListLinks(load);
    pairs := SortBy(MapAll(found, Named(sources, targets)), PairLess());
    PairsSorted(sources, targets, score);
    if Distinct(sources) && Distinct(targets) { PairsAreSeating(sources, targets, score); }
  }

  lemma {:induction false} RoomChosen(ranked: seq<nat>, load: Bins, capacity: nat)
    ensures var r := FirstWithRoom(ranked, load, capacity); r.Some? ==> r.value < |load|
  {
    if ranked != [] { RoomChosen(ranked[1..], load, capacity); }
  }

  lemma DonorCanSpare(load: Bins)
    requires FirstEmpty(load) < |load| <= |Flat(load)|
    ensures |load[Donor(load)]| > 1
  {
    if |load[Donor(load)]| <= 1 { FlatThin(load); }
  }

  lemma MoveKeepsSize(load: Bins, donor: nat, position: nat, empty: nat)
    requires donor < |load| && empty < |load| && position < |load[donor]|
    ensures |Flat(Move(load, donor, position, empty))| == |Flat(load)|
  {
    MoveCounts(load, donor, position, empty, Any<nat>());
    CountAll<nat>(Flat(load));
    CountAll<nat>(Flat(Move(load, donor, position, empty)));
  }

  // ------------------------------------------------------------ who is paired with whom

  /** The smaller side holds the larger one; sources and targets are numbered as listed. */
  ghost predicate ValidItem(sources: seq<Node>, targets: seq<Node>, item: nat) {
    item < if |sources| <= |targets| then |targets| else |sources|
  }

  ghost predicate ValidBin(sources: seq<Node>, targets: seq<Node>, bin: nat) {
    bin < if |sources| <= |targets| then |sources| else |targets|
  }

  ghost function ItemName(sources: seq<Node>, targets: seq<Node>, item: nat): Node
    requires ValidItem(sources, targets, item)
  {
    if |sources| <= |targets| then targets[item] else sources[item]
  }

  /** The score of the pair, the source first. */
  ghost function PairScore(sources: seq<Node>, targets: seq<Node>, score: (Node, Node) -> nat, item: nat, bin: nat): nat
    requires ValidItem(sources, targets, item) && ValidBin(sources, targets, bin)
  {
    if |sources| <= |targets| then score(sources[bin], targets[item]) else score(sources[item], targets[bin])
  }

  /** Items in bins: each item is listed at most once, and those of a bin in name order. */
  ghost predicate Seats(sources: seq<Node>, targets: seq<Node>, load: Bins) {
    && |load| == (if |sources| <= |targets| then |sources| else |targets|)
    && (forall b, k | 0 <= b < |load| && 0 <= k < |load[b]| :: ValidItem(sources, targets, load[b][k]))
    && (forall b, k, m | 0 <= b < |load| && 0 <= k < m < |load[b]| ::
          NameLess(ItemName(sources, targets, load[b][k]), ItemName(sources, targets, load[b][m])))
    && (forall b, k, c, m | 0 <= b < |load| && 0 <= k < |load[b]| && 0 <= c < |load| && 0 <= m < |load[c]|
                            && load[b][k] == load[c][m] :: b == c && k == m)
  }

  /** The bin was full with items named before this one. */
  ghost predicate FullBefore(sources: seq<Node>, targets: seq<Node>, capacity: nat, load: Bins, bin: nat, item: nat)
    requires Seats(sources, targets, load) && bin < |load| && ValidItem(sources, targets, item)
  {
    && capacity > 0 && |load[bin]| == capacity
    && NameLess(ItemName(sources, targets, load[bin][capacity-1]), ItemName(sources, targets, item))
  }

  /** The item scores higher with the first bin than with the other one; among equals the first listed wins. */
  ghost predicate Prefers(sources: seq<Node>, targets: seq<Node>, score: (Node, Node) -> nat, item: nat, bin: nat,
                          other: nat)
    requires ValidItem(sources, targets, item) && ValidBin(sources, targets, bin) && ValidBin(sources, targets, other)
  {
    var mine, its := PairScore(sources, targets, score, item, bin), PairScore(sources, targets, score, item, other);
    mine > its || (mine == its && bin < other)
  }

  /** In the order of their names, items take the best bin that has room. */
  ghost predicate BestSeats(sources: seq<Node>, targets: seq<Node>, score: (Node, Node) -> nat, capacity: nat,
                            load: Bins) {
    && Seats(sources, targets, load) && (forall b | 0 <= b < |load| :: |load[b]| <= capacity)
    && forall b, k, c | 0 <= b < |load| && 0 <= k < |load[b]| && 0 <= c < |load| && c != b
         && !FullBefore(sources, targets, capacity, load, c, load[b][k]) ::
         Prefers(sources, targets, score, load[b][k], b, c)
  }

  /**
   The first empty bin takes, from the first of the fullest bins, the item that scores best with it; the last-named
   among equals.
   */
  ghost predicate FillsFirst(sources: seq<Node>, targets: seq<Node>, score: (Node, Node) -> nat, before: Bins,
                             after: Bins, empty: nat, donor: nat, position: nat) {
    && Seats(sources, targets, before) && empty < |before| && donor < |before| && position < |before[donor]|
    && before[empty] == [] && (forall b | 0 <= b < empty :: before[b] != [])
    && |before[donor]| > 1 && (forall b | 0 <= b < |before| :: |before[b]| <= |before[donor]|)
    && (forall b | 0 <= b < donor :: |before[b]| < |before[donor]|)
    && (forall k | 0 <= k < |before[donor]| ::
          PairScore(sources, targets, score, before[donor][k], empty)
            <= PairScore(sources, targets, score, before[donor][position], empty))
    && (forall k | position < k < |before[donor]| ::
          PairScore(sources, targets, score, before[donor][k], empty)
            < PairScore(sources, targets, score, before[donor][position], empty))
    && after == before[donor := before[donor][..position] + before[donor][position+1..]]
                      [empty := [before[donor][position]]]
  }

  /** Seats are taken, and then empty bins filled one by one until there is none. */
  ghost predicate Seating(sources: seq<Node>, targets: seq<Node>, score: (Node, Node) -> nat, capacity: nat,
                          run: seq<Bins>) {
    && run != [] && BestSeats(sources, targets, score, capacity, run[0])
    && (forall k: nat | k < |run| - 1 :: FillsAt(sources, targets, score, run, k))
    && Seats(sources, targets, run[|run|-1]) && NoneEmpty(run[|run|-1])
  }

  ghost predicate FillsAt(sources: seq<Node>, targets: seq<Node>, score: (Node, Node) -> nat, run: seq<Bins>, k: nat)
    requires k < |run| - 1
  {
    FillsOne(sources, targets, score, run[k], run[k+1])
  }

  ghost predicate FillsOne(sources: seq<Node>, targets: seq<Node>, score: (Node, Node) -> nat, before: Bins,
                           after: Bins) {
    exists empty, donor, position :: FillsFirst(sources, targets, score, before, after, empty, donor, position)
  }

  ghost predicate NoneEmpty(load: Bins) { forall b | 0 <= b < |load| :: load[b] != [] }

  /** The share of a bin: the items divided by the bins, rounded up. */
  ghost predicate IsShare(sources: seq<Node>, targets: seq<Node>, capacity: nat) {
    if |sources| <= |targets| then (capacity - 1) * |sources| < |targets| <= capacity * |sources|
    else (capacity - 1) * |targets| < |sources| <= capacity * |targets|
  }

  /** Source and target of an item in a bin. */
  ghost predicate IsPair(sources: seq<Node>, targets: seq<Node>, load: Bins, p: Pair)
    requires Seats(sources, targets, load)
  {
    exists b, k | 0 <= b < |load| && 0 <= k < |load[b]| ::
      p == if |sources| <= |targets| then (sources[b], targets[load[b][k]]) else (sources[load[b][k]], targets[b])
  }

  /** The pairs are those of a seating. */
  ghost predicate PairedUp(sources: seq<Node>, targets: seq<Node>, score: (Node, Node) -> nat, pairs: seq<Pair>) {
    exists capacity, run :: PairedBy(sources, targets, score, capacity, run, pairs)
  }

  ghost predicate PairedBy(sources: seq<Node>, targets: seq<Node>, score: (Node, Node) -> nat, capacity: nat,
                           run: seq<Bins>, pairs: seq<Pair>) {
    && IsShare(sources, targets, capacity) && Seating(sources, targets, score, capacity, run)
    && forall p :: p in pairs <==> IsPair(sources, targets, run[|run|-1], p)
  }

  // ------------------------------------------------------------ what the pairing promises

  ghost predicate Distinct(xs: seq<Node>) { forall i, j | 0 <= i < j < |xs| :: xs[i] != xs[j] }

  function OfSource(s: Node): Pair -> bool { (p: Pair) => p.0 == s }

  function OfTarget(t: Node): Pair -> bool { (p: Pair) => p.1 == t }

  function OfBin(b: nat): Link -> bool { (l: Link) => l.0 == b }

  function OfItem(i: nat): Link -> bool { (l: Link) => l.1 == i }

  lemma {:induction false} RowCounts(bin: nat, members: seq<nat>, b: nat, i: nat)
    ensures CountIf(Row(bin, members), OfItem(i)) == CountIf(members, Is(i))
    ensures CountIf(Row(bin, members), OfBin(b)) == if b == bin then |members| else 0
    ensures forall l | l in Row(bin, members) :: l.0 == bin && l.1 in members
  {
    if members != [] {
      var front, last := members[..|members|-1], members[|members|-1];
      RowCounts(bin, front, b, i);
      assert members == front + [last];
      CountAppend(front, [last], Is(i));
      CountAppend(Row(bin, front), [(bin, last)], OfItem(i));
      CountAppend(Row(bin, front), [(bin, last)], OfBin(b));
      CountOne(last, Is(i));
      CountOne((bin, last), OfItem(i));
      CountOne((bin, last), OfBin(b));
    }
  }

  lemma {:induction false} FlatSnoc(load: Bins, members: seq<nat>)
    ensures Flat(load + [members]) == Flat(load) + members
  {
    if load != [] {
      assert (load + [members])[1..] == load[1..] + [members];
      FlatSnoc(load[1..], members);
    } else {
      assert load + [members] == [members];
      assert [members][1..] == [];
    }
  }

  lemma {:induction false} LinksByItem(load: Bins, i: nat)
    ensures CountIf(Links(load), OfItem(i)) == CountIf(Flat(load), Is(i))
  {
    if load != [] {
      var front, last := load[..|load|-1], load[|load|-1];
      LinksByItem(front, i);
      RowCounts(|load| - 1, last, 0, i);
      CountAppend(Links(front), Row(|load| - 1, last), OfItem(i));
      FlatLast(load);
      CountAppend(Flat(front), last, Is(i));
    }
  }

  lemma {:induction false} LinksByBin(load: Bins, b: nat)
    ensures CountIf(Links(load), OfBin(b)) == if b < |load| then |load[b]| else 0
  {
    if load != [] {
      var front, last := load[..|load|-1], load[|load|-1];
      LinksByBin(front, b);
      RowCounts(|load| - 1, last, b, 0);
      CountAppend(Links(front), Row(|load| - 1, last), OfBin(b));
    }
  }

  lemma {:induction false} LinksInRange(load: Bins)
    ensures forall l | l in Links(load) :: l.0 < |load| && l.1 in Flat(load)
  {
    if load != [] {
      LinksInRange(load[..|load|-1]);
      RowCounts(|load| - 1, load[|load|-1], 0, 0);
      FlatLast(load);
    }
  }

  lemma FlatLast(load: Bins)
    requires load != []
    ensures Flat(load) == Flat(load[..|load|-1]) + load[|load|-1]
  {
    assert load == load[..|load|-1] + [load[|load|-1]];
    FlatSnoc(load[..|load|-1], load[|load|-1]);
  }

  /** Items are exactly the indices below `|items|`, once each; bins hold between one and `capacity` items. */
  lemma FinalLoadSound(sources: seq<Node>, targets: seq<Node>, score: (Node, Node) -> nat, i: nat)
    requires sources != [] && targets != []
    ensures var load, bins, items := FinalLoad(sources, targets, score), BinsOf(sources, targets),
            ItemsOf(sources, targets);
            && |load| == |bins|
            && (forall b | 0 <= b < |load| :: 1 <= |load[b]| <= Capacity(|items|, |bins|))
            && CountIf(Flat(load), Is(i)) == if i < |items| then 1 else 0
  {
    var bins, items := BinsOf(sources, targets), ItemsOf(sources, targets);
    var w, capacity := Weigh(sources, targets, score), Capacity(|items|, |bins|);
    var order := SortBy(Indices(|items|), ByName(items));
    CountSort(Indices(|items|), ByName(items), Is(i));
    CountIndices(|items|, i);
    CapacityCovers(|items|, |bins|);
    AssignSound(order, |bins|, w, capacity, Is(i));
    RebalanceSound(Assign(order, |bins|, w, capacity), w, capacity, Is(i));
  }

  lemma FlatInRange(sources: seq<Node>, targets: seq<Node>, score: (Node, Node) -> nat, i: nat)
    requires sources != [] && targets != [] && i in Flat(FinalLoad(sources, targets, score))
    ensures i < |ItemsOf(sources, targets)|
  {
    FinalLoadSound(sources, targets, score, i);
    CountPositive(Flat(FinalLoad(sources, targets, score)), Is(i));
  }

  lemma LinkInRange(sources: seq<Node>, targets: seq<Node>, score: (Node, Node) -> nat, l: Link)
    requires sources != [] && targets != [] && l in Links(FinalLoad(sources, targets, score))
    ensures l.0 < |BinsOf(sources, targets)| && l.1 < |ItemsOf(sources, targets)|
  {
    LinksInRange(FinalLoad(sources, targets, score));
    FinalLoadSound(sources, targets, score, 0);
    FlatInRange(sources, targets, score, l.1);
  }

  ghost function ItemPairs(sources: seq<Node>, targets: seq<Node>, item: Node): Pair -> bool {
    if |sources| <= |targets| then OfTarget(item) else OfSource(item)
  }

  ghost function BinPairs(sources: seq<Node>, targets: seq<Node>, bin: Node): Pair -> bool {
    if |sources| <= |targets| then OfSource(bin) else OfTarget(bin)
  }

  /** Every node of the larger side is paired exactly once. */
  lemma ItemPairedOnce(sources: seq<Node>, targets: seq<Node>, score: (Node, Node) -> nat, i: nat)
    requires Distinct(sources) && Distinct(targets) && sources != [] && targets != []
    requires i < |ItemsOf(sources, targets)|
    ensures CountIf(Pairs(sources, targets, score), ItemPairs(sources, targets, ItemsOf(sources, targets)[i])) == 1
  {
    var load, items := FinalLoad(sources, targets, score), ItemsOf(sources, targets);
    var p := ItemPairs(sources, targets, items[i]);
    forall l | l in Links(load) ensures p(Named(sources, targets)(l)) == OfItem(i)(l) {
      LinkInRange(sources, targets, score, l);
    }
    CountSort(MapAll(Links(load), Named(sources, targets)), PairLess(), p);
    CountMap(Links(load), Named(sources, targets), p, OfItem(i));
    LinksByItem(load, i);
    FinalLoadSound(sources, targets, score, i);
  }

  /** Every node of the smaller side is paired, and with no more than its share. */
  lemma BinPairedWithinShare(sources: seq<Node>, targets: seq<Node>, score: (Node, Node) -> nat, b: nat)
    requires Distinct(sources) && Distinct(targets) && sources != [] && targets != []
    requires b < |BinsOf(sources, targets)|
    ensures var bins, items := BinsOf(sources, targets), ItemsOf(sources, targets);
            1 <= CountIf(Pairs(sources, targets, score), BinPairs(sources, targets, bins[b]))
              <= Capacity(|items|, |bins|)
  {
    var load, bins := FinalLoad(sources, targets, score), BinsOf(sources, targets);
    var p := BinPairs(sources, targets, bins[b]);
    forall l | l in Links(load) ensures p(Named(sources, targets)(l)) == OfBin(b)(l) {
      LinkInRange(sources, targets, score, l);
    }
    CountSort(MapAll(Links(load), Named(sources, targets)), PairLess(), p);
    CountMap(Links(load), Named(sources, targets), p, OfBin(b));
    LinksByBin(load, b);
    FinalLoadSound(sources, targets, score, 0);
  }

  lemma PairOrder()
    ensures WeakOrder(PairLess())
  {
    forall p: Pair, q: Pair ensures PairLess()(p, q) ==> !PairLess()(q, p) {
      if NameLess(p.0, q.0) { NameAsymmetric(p.0, q.0); } else if PairLess()(p, q) { NameAsymmetric(p.1, q.1); }
    }
    forall p: Pair, q: Pair, r: Pair ensures PairLess()(p, r) ==> PairLess()(p, q) || PairLess()(q, r) {
      NameTotal(p.0, q.0);
      NameTotal(q.0, r.0);
      NameTotal(p.1, q.1);
      NameTotal(q.1, r.1);
      if NameLess(q.0, p.0) && NameLess(p.0, r.0) { NameTransitive(q.0, p.0, r.0); }
      if NameLess(q.1, p.1) && NameLess(p.1, r.1) { NameTransitive(q.1, p.1, r.1); }
    }
  }

  /** Pairs in the order of their sources, and of their targets for one source. */
  ghost predicate InNameOrder(pairs: seq<Pair>) {
    forall i, j | 0 <= i < j < |pairs| ::
      if pairs[i].0 == pairs[j].0 then pairs[i].1 == pairs[j].1 || NameLess(pairs[i].1, pairs[j].1)
      else NameLess(pairs[i].0, pairs[j].0)
  }

  /** The pairs come in name order. */
  lemma PairsSorted(sources: seq<Node>, targets: seq<Node>, score: (Node, Node) -> nat)
    ensures InNameOrder(Pairs(sources, targets, score))
  {
    PairOrder();
    if sources != [] && targets != [] {
      SortSorted(MapAll(Links(FinalLoad(sources, targets, score)), Named(sources, targets)), PairLess());
    }
    var pairs := Pairs(sources, targets, score);
    forall i, j | 0 <= i < j < |pairs|
      ensures if pairs[i].0 == pairs[j].0 then pairs[i].1 == pairs[j].1 || NameLess(pairs[i].1, pairs[j].1)
              else NameLess(pairs[i].0, pairs[j].0)
    {
      assert !PairLess()(pairs[j], pairs[i]);
      NameTotal(pairs[i].0, pairs[j].0);
      NameTotal(pairs[i].1, pairs[j].1);
    }
  }

  /** Every pair joins a source to a target. */
  lemma PairInRange(sources: seq<Node>, targets: seq<Node>, score: (Node, Node) -> nat, p: Pair)
    requires p in Pairs(sources, targets, score)
    ensures p.0 in sources && p.1 in targets
  {
    var links := Links(FinalLoad(sources, targets, score));
    InSorted(MapAll(links, Named(sources, targets)), PairLess(), p);
    InMapped(links, Named(sources, targets), p);
    var l :| l in links && Named(sources, targets)(l) == p;
    LinkInRange(sources, targets, score, l);
  }

  lemma PairedNode(sources: seq<Node>, targets: seq<Node>, score: (Node, Node) -> nat, x: Node, q: Pair -> bool)
    returns (p: Pair)
    requires Distinct(sources) && Distinct(targets) && sources != [] && targets != []
    requires || (x in ItemsOf(sources, targets) && q == ItemPairs(sources, targets, x))
             || (x in BinsOf(sources, targets) && q == BinPairs(sources, targets, x))
    ensures p in Pairs(sources, targets, score) && q(p)
  {
    if x in ItemsOf(sources, targets) && q == ItemPairs(sources, targets, x) {
      var i :| 0 <= i < |ItemsOf(sources, targets)| && ItemsOf(sources, targets)[i] == x;
      ItemPairedOnce(sources, targets, score, i);
    } else {
      var b :| 0 <= b < |BinsOf(sources, targets)| && BinsOf(sources, targets)[b] == x;
      BinPairedWithinShare(sources, targets, score, b);
    }
    CountPositive(Pairs(sources, targets, score), q);
    p :| p in Pairs(sources, targets, score) && q(p);
  }

  lemma SourceHasTarget(sources: seq<Node>, targets: seq<Node>, score: (Node, Node) -> nat, s: Node) returns (t: Node)
    requires Distinct(sources) && Distinct(targets) && targets != [] && s in sources
    ensures (s, t) in Pairs(sources, targets, score)
  {
    var p := PairedNode(sources, targets, score, s, OfSource(s));
    t := p.1;
  }

  lemma TargetHasSource(sources: seq<Node>, targets: seq<Node>, score: (Node, Node) -> nat, t: Node) returns (s: Node)
    requires Distinct(sources) && Distinct(targets) && sources != [] && t in targets
    ensures (s, t) in Pairs(sources, targets, score)
  {
    var p := PairedNode(sources, targets, score, t, OfTarget(t));
    s := p.0;
  }

  // ------------------------------------------------------------ the pairing is the seating

  /** Insertion keeps an order that refines the one it inserts by. */
  lemma {:induction false} InsertAscending(x: nat, xs: seq<nat>, before: (nat, nat) -> bool, total: (nat, nat) -> bool)
    requires Ascending(xs, total) && forall y | y in xs :: if before(x, y) then total(x, y) else total(y, x)
    requires forall y, z | y in xs && z in xs && total(x, y) && total(y, z) :: total(x, z)
    ensures Ascending(InsertBy(x, xs, before), total)
  {
    if xs != [] {
      assert xs[0] in xs;
      if before(x, xs[0]) {
        forall j | 0 <= j < |xs| ensures total(x, xs[j]) { assert xs[j] in xs && (j > 0 ==> total(xs[0], xs[j])); }
      } else {
        assert forall y | y in xs[1..] :: y in xs;
        assert Ascending(xs[1..], total) by { assert forall i | 0 <= i < |xs| - 1 :: xs[1..][i] == xs[i+1]; }
        InsertAscending(x, xs[1..], before, total);
        var rest := InsertBy(x, xs[1..], before);
        forall j | 0 <= j < |rest| ensures total(xs[0], rest[j]) {
          InInserted(x, xs[1..], before, rest[j]);
          if rest[j] != x {
            var k :| 0 <= k < |xs[1..]| && xs[1..][k] == rest[j];
            assert total(xs[0], xs[k+1]);
          }
        }
      }
    }
  }

  /** Falling scores, and equal scores in index order. */
  ghost function ByScoreThenIndex(item: nat, w: Weight): (nat, nat) -> bool {
    (a: nat, b: nat) => w(item, a) > w(item, b) || (w(item, a) == w(item, b) && a < b)
  }

  lemma {:induction false} RankedAscending(n: nat, item: nat, w: Weight)
    ensures Ascending(Ranked(n, item, w), ByScoreThenIndex(item, w))
  {
    if n > 0 {
      var last: nat := n - 1;
      RankedAscending(last, item, w);
      assert Indices(n)[..last] == Indices(last);
      forall y: nat | y in Ranked(last, item, w) ensures y < last { InSorted<nat>(Indices(last), ByScore(item, w), y); }
      InsertAscending(last, Ranked(last, item, w), ByScore(item, w), ByScoreThenIndex(item, w));
    }
  }

  /** The chosen bin has room, and is preferred to every other bin with room. */
  lemma ChosenBin(load: Bins, item: nat, w: Weight, capacity: nat, bin: nat)
    requires bin < |load| && |load[bin]| < capacity
    ensures var chosen := FirstWithRoom(Ranked(|load|, item, w), load, capacity);
            && chosen.Some? && chosen.value < |load| && |load[chosen.value]| < capacity
            && (chosen.value == bin || ByScoreThenIndex(item, w)(chosen.value, bin))
  {
    var ranked := Ranked(|load|, item, w);
    RankedHasAll(|load|, item, w, bin);
    RoomFound(ranked, load, capacity, bin);
    RoomIsFirst(ranked, load, capacity, bin);
    RankedAscending(|load|, item, w);
    var i, j :| 0 <= i <= j < |ranked| && Some(ranked[i]) == FirstWithRoom(ranked, load, capacity) && ranked[j] == bin;
    assert i < j ==> ByScoreThenIndex(item, w)(ranked[i], ranked[j]);
  }

  lemma NamesOrdered(items: seq<Node>, x: nat, y: nat, z: nat)
    requires Distinct(items) && x < |items| && y < |items| && z < |items|
    ensures x != y ==> ByName(items)(x, y) || ByName(items)(y, x)
    ensures ByName(items)(x, y) && ByName(items)(y, z) ==> ByName(items)(x, z)
  {
    NameTotal(items[x], items[y]);
    if ByName(items)(x, y) && ByName(items)(y, z) { NameTransitive(items[x], items[y], items[z]); }
  }

  lemma {:induction false} OrderAscending(items: seq<Node>, n: nat)
    requires Distinct(items) && n <= |items|
    ensures Ascending(SortBy(Indices(n), ByName(items)), ByName(items))
    ensures forall y: nat | y in SortBy<nat>(Indices(n), ByName(items)) :: y < n
  {
    var lt := ByName(items);
    forall y: nat | y in SortBy<nat>(Indices(n), lt) ensures y < n { InSorted<nat>(Indices(n), lt, y); }
    if n > 0 {
      var x: nat, xs: seq<nat> := n - 1, SortBy<nat>(Indices(n - 1), lt);
      OrderAscending(items, n - 1);
      assert Indices(n)[..n-1] == Indices(n - 1);
      forall y: nat | y in xs ensures if lt(x, y) then lt(x, y) else lt(y, x) { NamesOrdered(items, x, y, y); }
      forall y: nat, z: nat | y in xs && z in xs && lt(x, y) && lt(y, z) ensures lt(x, z) {
        NamesOrdered(items, x, y, z);
      }
      InsertAscending(x, xs, lt, lt);
    }
  }

  /** All that is seated was named before `item`. */
  ghost predicate SeatedBefore(sources: seq<Node>, targets: seq<Node>, load: Bins, item: nat)
    requires Seats(sources, targets, load) && ValidItem(sources, targets, item)
  {
    forall b, k | 0 <= b < |load| && 0 <= k < |load[b]| ::
      NameLess(ItemName(sources, targets, load[b][k]), ItemName(sources, targets, item))
  }

  lemma PutSeats(sources: seq<Node>, targets: seq<Node>, load: Bins, bin: nat, item: nat)
    requires Seats(sources, targets, load) && bin < |load| && ValidItem(sources, targets, item)
    requires SeatedBefore(sources, targets, load, item)
    ensures Seats(sources, targets, Put(load, bin, item))
  {
    forall b, k | 0 <= b < |load| && 0 <= k < |load[b]| ensures load[b][k] != item {
      NameAsymmetric(ItemName(sources, targets, load[b][k]), ItemName(sources, targets, item));
    }
  }

  /** Whoever is seated already has not lost a choice. */
  lemma StillBest(sources: seq<Node>, targets: seq<Node>, score: (Node, Node) -> nat, capacity: nat, load: Bins,
                  bin: nat, item: nat, b: nat, k: nat, c: nat)
    requires BestSeats(sources, targets, score, capacity, load) && bin < |load| && |load[bin]| < capacity
    requires ValidItem(sources, targets, item) && SeatedBefore(sources, targets, load, item)
    requires Seats(sources, targets, Put(load, bin, item))
    requires b < |load| && k < |load[b]| && c < |load| && c != b
    requires !FullBefore(sources, targets, capacity, Put(load, bin, item), c, load[b][k])
    ensures Prefers(sources, targets, score, load[b][k], b, c)
  {
    assert !FullBefore(sources, targets, capacity, load, c, load[b][k]);
  }

  ghost predicate Chosen(sources: seq<Node>, targets: seq<Node>, score: (Node, Node) -> nat, capacity: nat, load: Bins,
                         bin: nat, item: nat) {
    && ValidItem(sources, targets, item) && ValidBin(sources, targets, bin) && bin < |load| && |load[bin]| < capacity
    && forall c | 0 <= c < |load| && c != bin && ValidBin(sources, targets, c) && |load[c]| < capacity ::
         Prefers(sources, targets, score, item, bin, c)
  }

  lemma NextBest(sources: seq<Node>, targets: seq<Node>, score: (Node, Node) -> nat, capacity: nat, load: Bins,
                 bin: nat, item: nat)
    requires BestSeats(sources, targets, score, capacity, load)
    requires Chosen(sources, targets, score, capacity, load, bin, item)
    requires SeatedBefore(sources, targets, load, item)
    ensures BestSeats(sources, targets, score, capacity, Put(load, bin, item))
  {
    var after := Put(load, bin, item);
    PutSeats(sources, targets, load, bin, item);
    forall b, k, c | 0 <= b < |after| && 0 <= k < |after[b]| && 0 <= c < |after| && c != b
                     && !FullBefore(sources, targets, capacity, after, c, after[b][k])
      ensures Prefers(sources, targets, score, after[b][k], b, c)
    {
      if k < |load[b]| {
        StillBest(sources, targets, score, capacity, load, bin, item, b, k, c);
      } else {
        assert |load[c]| < capacity;
      }
    }
  }

  lemma WeighsPair(sources: seq<Node>, targets: seq<Node>, score: (Node, Node) -> nat, item: nat, bin: nat)
    requires ValidItem(sources, targets, item) && ValidBin(sources, targets, bin)
    ensures Weigh(sources, targets, score)(item, bin) == PairScore(sources, targets, score, item, bin)
  {
  }

  lemma ChoosesBest(sources: seq<Node>, targets: seq<Node>, score: (Node, Node) -> nat, capacity: nat, load: Bins,
                    item: nat)
    requires Seats(sources, targets, load) && ValidItem(sources, targets, item)
    requires exists b | 0 <= b < |load| :: |load[b]| < capacity
    ensures var bin := FirstWithRoom(Ranked(|load|, item, Weigh(sources, targets, score)), load, capacity);
            bin.Some? && Chosen(sources, targets, score, capacity, load, bin.value, item)
  {
    var w := Weigh(sources, targets, score);
    var some :| 0 <= some < |load| && |load[some]| < capacity;
    ChosenBin(load, item, w, capacity, some);
    var bin := FirstWithRoom(Ranked(|load|, item, w), load, capacity).value;
    forall c | 0 <= c < |load| && c != bin && |load[c]| < capacity
      ensures Prefers(sources, targets, score, item, bin, c)
    {
      ChosenBin(load, item, w, capacity, c);
      WeighsPair(sources, targets, score, item, bin);
      WeighsPair(sources, targets, score, item, c);
    }
  }

  ghost predicate SeatedFrom(load: Bins, order: seq<nat>) {
    forall b, k | 0 <= b < |load| && 0 <= k < |load[b]| :: load[b][k] in order
  }

  lemma AssignNext(sources: seq<Node>, targets: seq<Node>, score: (Node, Node) -> nat, capacity: nat, load: Bins,
                   order: seq<nat>)
    requires BestSeats(sources, targets, score, capacity, load) && exists b | 0 <= b < |load| :: |load[b]| < capacity
    requires order != [] && ValidItem(sources, targets, order[|order|-1])
    requires Ascending(order, ByName(ItemsOf(sources, targets))) && SeatedFrom(load, order[..|order|-1])
    ensures var after := AssignOne(load, order[|order|-1], Weigh(sources, targets, score), capacity);
            BestSeats(sources, targets, score, capacity, after) && SeatedFrom(after, order)
  {
    var item := order[|order|-1];
    NamedBefore(sources, targets, order, load);
    ChoosesBest(sources, targets, score, capacity, load, item);
    var bin := FirstWithRoom(Ranked(|load|, item, Weigh(sources, targets, score)), load, capacity).value;
    NextBest(sources, targets, score, capacity, load, bin, item);
    PutFrom(load, bin, order);
  }

  lemma PutFrom(load: Bins, bin: nat, order: seq<nat>)
    requires bin < |load| && order != [] && SeatedFrom(load, order[..|order|-1])
    ensures SeatedFrom(Put(load, bin, order[|order|-1]), order)
  {
    var after := Put(load, bin, order[|order|-1]);
    forall b, k | 0 <= b < |after| && 0 <= k < |after[b]| ensures after[b][k] in order {
      if k < |load[b]| { assert load[b][k] in order[..|order|-1]; }
    }
  }

  lemma BinsNumber(sources: seq<Node>, targets: seq<Node>)
    ensures |BinsOf(sources, targets)| == if |sources| <= |targets| then |sources| else |targets|
    ensures forall i: nat :: i < |ItemsOf(sources, targets)| <==> ValidItem(sources, targets, i)
  {
  }

  /** The items of a prefix of the name order, seated. */
  lemma {:induction false} AssignBest(sources: seq<Node>, targets: seq<Node>, score: (Node, Node) -> nat,
                                      capacity: nat, order: seq<nat>, n: nat)
    requires n == |BinsOf(sources, targets)| && |order| <= n * capacity
    requires Ascending(order, ByName(ItemsOf(sources, targets)))
             && forall i | 0 <= i < |order| :: ValidItem(sources, targets, order[i])
    ensures var load := Assign(order, n, Weigh(sources, targets, score), capacity);
            BestSeats(sources, targets, score, capacity, load) && SeatedFrom(load, order)
  {
    if order == [] {
      BinsNumber(sources, targets);
      EmptySeats(n);
    } else {
      var front := order[..|order|-1];
      AssignBest(sources, targets, score, capacity, front, n);
      var load := Assign(front, n, Weigh(sources, targets, score), capacity);
      AssignSound(front, n, Weigh(sources, targets, score), capacity, Any<nat>());
      var some := RoomLeft(load, capacity);
      AssignNext(sources, targets, score, capacity, load, order);
    }
  }

  lemma {:induction false} EmptySeats(n: nat)
    ensures |EmptyBins(n)| == n && forall b | 0 <= b < n :: EmptyBins(n)[b] == []
  {
    if n > 0 { EmptySeats(n - 1); }
  }

  lemma NamedBefore(sources: seq<Node>, targets: seq<Node>, order: seq<nat>, load: Bins)
    requires order != [] && Ascending(order, ByName(ItemsOf(sources, targets))) && Seats(sources, targets, load)
    requires ValidItem(sources, targets, order[|order|-1])
    requires forall b, k | 0 <= b < |load| && 0 <= k < |load[b]| :: load[b][k] in order[..|order|-1]
    ensures SeatedBefore(sources, targets, load, order[|order|-1])
  {
    var n := |order| - 1;
    forall b, k | 0 <= b < |load| && 0 <= k < |load[b]|
      ensures NameLess(ItemName(sources, targets, load[b][k]), ItemName(sources, targets, order[n]))
    {
      var i :| 0 <= i < n && order[i] == load[b][k];
      assert ByName(ItemsOf(sources, targets))(order[i], order[n]);
    }
  }

  // ------------------------------------------------------------ filling empty bins

  /** Where the item at this place was before the move. */
  ghost function Origin(donor: nat, position: nat, empty: nat, bin: nat, k: nat): (nat, nat) {
    if bin == empty then (donor, position) else if bin == donor && k >= position then (donor, k + 1) else (bin, k)
  }

  lemma MoveOrigin(load: Bins, donor: nat, position: nat, empty: nat, b: nat, k: nat)
    requires donor < |load| && empty < |load| && position < |load[donor]| && load[empty] == []
    requires var after := Move(load, donor, position, empty); b < |after| && k < |after[b]|
    ensures var (c, m) := Origin(donor, position, empty, b, k);
            c < |load| && m < |load[c]| && Move(load, donor, position, empty)[b][k] == load[c][m]
  {
  }

  lemma MovedInOrder(sources: seq<Node>, targets: seq<Node>, load: Bins, donor: nat, position: nat, empty: nat, b: nat,
                     k: nat, m: nat)
    requires Seats(sources, targets, load) && donor < |load| && empty < |load| && position < |load[donor]|
    requires load[empty] == [] && b < |load| && k < m < |Move(load, donor, position, empty)[b]|
    ensures var after := Move(load, donor, position, empty);
            && ValidItem(sources, targets, after[b][k]) && ValidItem(sources, targets, after[b][m])
            && NameLess(ItemName(sources, targets, after[b][k]), ItemName(sources, targets, after[b][m]))
  {
    MoveOrigin(load, donor, position, empty, b, k);
    MoveOrigin(load, donor, position, empty, b, m);
  }

  lemma MovedApart(sources: seq<Node>, targets: seq<Node>, load: Bins, donor: nat, position: nat, empty: nat, b: nat,
                   k: nat, c: nat, m: nat)
    requires Seats(sources, targets, load) && donor < |load| && empty < |load| && position < |load[donor]|
    requires load[empty] == [] && b < |load| && k < |Move(load, donor, position, empty)[b]|
    requires c < |load| && m < |Move(load, donor, position, empty)[c]|
    ensures var after := Move(load, donor, position, empty);
            ValidItem(sources, targets, after[b][k]) && (after[b][k] == after[c][m] ==> b == c && k == m)
  {
    MoveOrigin(load, donor, position, empty, b, k);
    MoveOrigin(load, donor, position, empty, c, m);
    assert |Move(load, donor, position, empty)[empty]| == 1;
  }

  lemma MovedSeats(sources: seq<Node>, targets: seq<Node>, load: Bins, donor: nat, position: nat, empty: nat)
    requires Seats(sources, targets, load) && donor < |load| && empty < |load| && position < |load[donor]|
    requires load[empty] == []
    ensures Seats(sources, targets, Move(load, donor, position, empty))
  {
    var after := Move(load, donor, position, empty);
    forall b, k, c, m | 0 <= b < |after| && 0 <= k < |after[b]| && 0 <= c < |after| && 0 <= m < |after[c]|
      ensures ValidItem(sources, targets, after[b][k]) && (after[b][k] == after[c][m] ==> b == c && k == m)
    {
      MovedApart(sources, targets, load, donor, position, empty, b, k, c, m);
    }
    forall b, k | 0 <= b < |after| && 0 <= k < |after[b]| ensures ValidItem(sources, targets, after[b][k]) {
      MovedApart(sources, targets, load, donor, position, empty, b, k, b, k);
    }
    forall b, k, m | 0 <= b < |after| && 0 <= k < m < |after[b]|
      ensures NameLess(ItemName(sources, targets, after[b][k]), ItemName(sources, targets, after[b][m]))
    {
      MovedInOrder(sources, targets, load, donor, position, empty, b, k, m);
    }
  }

  lemma MoveIs(load: Bins, donor: nat, position: nat, empty: nat)
    requires donor < |load| && empty < |load| && position < |load[donor]| && load[empty] == [] && donor != empty
    ensures Move(load, donor, position, empty) ==
            load[donor := load[donor][..position] + load[donor][position+1..]][empty := [load[donor][position]]]
  {
    assert [] + [load[donor][position]] == [load[donor][position]];
  }

  lemma MoveFills(sources: seq<Node>, targets: seq<Node>, score: (Node, Node) -> nat, load: Bins)
    requires Seats(sources, targets, load) && FirstEmpty(load) < |load| && |load[Donor(load)]| > 1
    ensures var empty, donor := FirstEmpty(load), Donor(load);
            var position := BestItem(load[donor], empty, Weigh(sources, targets, score));
            FillsFirst(sources, targets, score, load, Move(load, donor, position, empty), empty, donor, position)
  {
    var empty, donor := FirstEmpty(load), Donor(load);
    MoveIs(load, donor, BestItem(load[donor], empty, Weigh(sources, targets, score)), empty);
    BestForBin(sources, targets, score, load[donor], empty);
  }

  lemma BestForBin(sources: seq<Node>, targets: seq<Node>, score: (Node, Node) -> nat, items: seq<nat>, bin: nat)
    requires items != [] && ValidBin(sources, targets, bin)
    requires forall k | 0 <= k < |items| :: ValidItem(sources, targets, items[k])
    ensures var p := BestItem(items, bin, Weigh(sources, targets, score));
            && (forall k | 0 <= k < |items| ::
                  PairScore(sources, targets, score, items[k], bin) <=
                    PairScore(sources, targets, score, items[p], bin))
            && (forall k | p < k < |items| ::
                  PairScore(sources, targets, score, items[k], bin) <
                    PairScore(sources, targets, score, items[p], bin))
  {
    forall k | 0 <= k < |items|
      ensures Weigh(sources, targets, score)(items[k], bin) == PairScore(sources, targets, score, items[k], bin)
    {
      WeighsPair(sources, targets, score, items[k], bin);
    }
  }

  /** The next load of a rebalancing. */
  lemma RebalanceStep(sources: seq<Node>, targets: seq<Node>, score: (Node, Node) -> nat, load: Bins)
    returns (next: Bins)
    requires Seats(sources, targets, load) && FirstEmpty(load) < |load| && |load[Donor(load)]| > 1
    ensures Seats(sources, targets, next) && Empties(next) < Empties(load)
    ensures FillsOne(sources, targets, score, load, next)
    ensures Rebalance(next, Weigh(sources, targets, score)) == Rebalance(load, Weigh(sources, targets, score))
  {
    var empty, donor := FirstEmpty(load), Donor(load);
    var position := BestItem(load[donor], empty, Weigh(sources, targets, score));
    next := Move(load, donor, position, empty);
    MoveFillsOne(load, donor, position, empty);
    MovedSeats(sources, targets, load, donor, position, empty);
    MoveFills(sources, targets, score, load);
  }

  ghost predicate Fills(sources: seq<Node>, targets: seq<Node>, score: (Node, Node) -> nat, run: seq<Bins>) {
    forall k: nat | k < |run| - 1 :: FillsAt(sources, targets, score, run, k)
  }

  lemma FillsMore(sources: seq<Node>, targets: seq<Node>, score: (Node, Node) -> nat, load: Bins, rest: seq<Bins>)
    requires rest != [] && Fills(sources, targets, score, rest) && FillsOne(sources, targets, score, load, rest[0])
    ensures Fills(sources, targets, score, [load] + rest)
  {
    var run := [load] + rest;
    forall k: nat | k < |run| - 1 ensures FillsAt(sources, targets, score, run, k) {
      if k == 0 {
        assert run[0] == load && run[1] == rest[0];
      } else {
        assert run[k] == rest[k-1] && run[k+1] == rest[k] && FillsAt(sources, targets, score, rest, k - 1);
      }
    }
  }

  /** One load after the other, up to the end of the rebalancing. */
  ghost predicate RunsTo(sources: seq<Node>, targets: seq<Node>, score: (Node, Node) -> nat, load: Bins, last: Bins,
                         run: seq<Bins>) {
    && run != [] && run[0] == load && run[|run|-1] == last
    && Fills(sources, targets, score, run) && Seats(sources, targets, last)
  }

  lemma RunMore(sources: seq<Node>, targets: seq<Node>, score: (Node, Node) -> nat, load: Bins, next: Bins, last: Bins,
                rest: seq<Bins>)
    requires RunsTo(sources, targets, score, next, last, rest) && FillsOne(sources, targets, score, load, next)
    ensures RunsTo(sources, targets, score, load, last, [load] + rest)
  {
    FillsMore(sources, targets, score, load, rest);
  }

  lemma {:induction false} RebalanceRun(sources: seq<Node>, targets: seq<Node>, score: (Node, Node) -> nat, load: Bins)
    returns (run: seq<Bins>)
    requires Seats(sources, targets, load)
    ensures RunsTo(sources, targets, score, load, Rebalance(load, Weigh(sources, targets, score)), run)
    decreases Empties(load)
  {
    var last := Rebalance(load, Weigh(sources, targets, score));
    if FirstEmpty(load) == |load| || |load[Donor(load)]| <= 1 {
      run := [load];
    } else {
      var next := RebalanceStep(sources, targets, score, load);
      run := RebalanceRun(sources, targets, score, next);
      RunMore(sources, targets, score, load, next, last, run);
      run := [load] + run;
    }
  }

  lemma {:induction false} LinksExactly(load: Bins, l: Link)
    ensures l in Links(load) <==> l.0 < |load| && l.1 in load[l.0]
  {
    if load != [] {
      var front, last := load[..|load|-1], load[|load|-1];
      LinksExactly(front, l);
      RowExactly(|load| - 1, last, l);
    }
  }

  lemma {:induction false} RowExactly(bin: nat, members: seq<nat>, l: Link)
    ensures l in Row(bin, members) <==> l.0 == bin && l.1 in members
  {
    if members != [] {
      RowExactly(bin, members[..|members|-1], l);
      assert members == members[..|members|-1] + [members[|members|-1]];
    }
  }

  lemma LinkIsPair(sources: seq<Node>, targets: seq<Node>, load: Bins, l: Link)
    requires Seats(sources, targets, load) && l in Links(load)
    ensures IsPair(sources, targets, load, Named(sources, targets)(l))
  {
    LinksExactly(load, l);
    var k :| 0 <= k < |load[l.0]| && load[l.0][k] == l.1;
    assert ValidItem(sources, targets, load[l.0][k]);
  }

  lemma PairIsLink(sources: seq<Node>, targets: seq<Node>, load: Bins, p: Pair) returns (l: Link)
    requires Seats(sources, targets, load) && IsPair(sources, targets, load, p)
    ensures l in Links(load) && Named(sources, targets)(l) == p
  {
    var b, k :| 0 <= b < |load| && 0 <= k < |load[b]| && p ==
        if |sources| <= |targets| then (sources[b], targets[load[b][k]]) else (sources[load[b][k]], targets[b]);
    l := (b, load[b][k]);
    LinksExactly(load, l);
  }

  lemma {:induction false} MapHas<T, U>(xs: seq<T>, f: T -> U, x: T)
    requires x in xs
    ensures f(x) in MapAll(xs, f)
  {
    if xs[0] != x { MapHas(xs[1..], f, x); }
  }

  lemma PairsOfLoad(sources: seq<Node>, targets: seq<Node>, score: (Node, Node) -> nat, p: Pair)
    requires sources != [] && targets != [] && Seats(sources, targets, FinalLoad(sources, targets, score))
    ensures p in Pairs(sources, targets, score) <==>
            IsPair(sources, targets, FinalLoad(sources, targets, score), p)
  {
    var load := FinalLoad(sources, targets, score);
    InSorted(MapAll(Links(load), Named(sources, targets)), PairLess(), p);
    if p in Pairs(sources, targets, score) {
      InMapped(Links(load), Named(sources, targets), p);
      var l :| l in Links(load) && Named(sources, targets)(l) == p;
      LinkIsPair(sources, targets, load, l);
    }
    if IsPair(sources, targets, load, p) {
      var l := PairIsLink(sources, targets, load, p);
      MapHas(Links(load), Named(sources, targets), l);
    }
  }

  lemma ShareIs(sources: seq<Node>, targets: seq<Node>)
    requires sources != [] && targets != []
    ensures IsShare(sources, targets, Capacity(|ItemsOf(sources, targets)|, |BinsOf(sources, targets)|))
  {
    CeilIs(|ItemsOf(sources, targets)|, |BinsOf(sources, targets)|);
  }

  lemma CeilIs(items: nat, bins: nat)
    requires bins > 0
    ensures (Capacity(items, bins) - 1) * bins < items <= Capacity(items, bins) * bins || items == 0
  {
    var q, r := Capacity(items, bins), (items + bins - 1) % bins;
    assert items + bins - 1 == bins * q + r;
    assert (q - 1) * bins == bins * q - bins && q * bins == bins * q;
  }

  /** The seats before empty bins are filled. */
  ghost function FirstLoad(sources: seq<Node>, targets: seq<Node>, score: (Node, Node) -> nat): Bins
    requires sources != [] && targets != []
  {
    var bins, items := BinsOf(sources, targets), ItemsOf(sources, targets);
    Assign(SortBy(Indices(|items|), ByName(items)), |bins|, Weigh(sources, targets, score),
           Capacity(|items|, |bins|))
  }

  lemma FirstSeats(sources: seq<Node>, targets: seq<Node>, score: (Node, Node) -> nat)
    requires Distinct(sources) && Distinct(targets) && sources != [] && targets != []
    ensures BestSeats(sources, targets, score, Capacity(|ItemsOf(sources, targets)|, |BinsOf(sources, targets)|),
                      FirstLoad(sources, targets, score))
  {
    var bins, items := BinsOf(sources, targets), ItemsOf(sources, targets);
    var order, capacity := SortBy<nat>(Indices(|items|), ByName(items)), Capacity(|items|, |bins|);
    OrderAscending(items, |items|);
    CountSort<nat>(Indices(|items|), ByName(items), Any<nat>());
    CapacityCovers(|items|, |bins|);
    forall i | 0 <= i < |order| ensures ValidItem(sources, targets, order[i]) { assert order[i] in order; }
    AssignBest(sources, targets, score, capacity, order, |bins|);
  }

  lemma SeatingRun(sources: seq<Node>, targets: seq<Node>, score: (Node, Node) -> nat) returns (run: seq<Bins>)
    requires Distinct(sources) && Distinct(targets) && sources != [] && targets != []
    ensures Seating(sources, targets, score, Capacity(|ItemsOf(sources, targets)|, |BinsOf(sources, targets)|), run)
    ensures run[|run|-1] == FinalLoad(sources, targets, score)
  {
    FirstSeats(sources, targets, score);
    run := RebalanceRun(sources, targets, score, FirstLoad(sources, targets, score));
    FinalLoadSound(sources, targets, score, 0);
    assert NoneEmpty(FinalLoad(sources, targets, score));
  }

  /** In the order of their names, nodes of the larger side take the best partner with room; then gaps are filled. */
  lemma PairsAreSeating(sources: seq<Node>, targets: seq<Node>, score: (Node, Node) -> nat)
    requires Distinct(sources) && Distinct(targets) && sources != [] && targets != []
    ensures PairedUp(sources, targets, score, Pairs(sources, targets, score))
  {
    var run := SeatingRun(sources, targets, score);
    ShareIs(sources, targets);
    forall p ensures p in Pairs(sources, targets, score) <==> IsPair(sources, targets, run[|run|-1], p) {
      PairsOfLoad(sources, targets, score, p);
    }
    assert PairedBy(sources, targets, score, Capacity(|ItemsOf(sources, targets)|, |BinsOf(sources, targets)|), run,
                    Pairs(sources, targets, score));
  }

  /** A bin that somebody chose only ever loses items, and never all of them. */
  lemma {:induction false} ChosenBinsKeep(sources: seq<Node>, targets: seq<Node>, score: (Node, Node) -> nat,
                                          run: seq<Bins>, k: nat, b: nat)
    requires k < |run| && Fills(sources, targets, score, run) && b < |run[0]| && run[0][b] != []
    ensures b < |run[k]| && run[k][b] != [] && forall i | i in run[k][b] :: i in run[0][b]
  {
    if k > 0 {
      ChosenBinsKeep(sources, targets, score, run, k - 1, b);
      assert FillsAt(sources, targets, score, run, k - 1);
      var empty, donor, position :| FillsFirst(sources, targets, score, run[k-1], run[k], empty, donor, position);
      assert b != empty;
      if b == donor {
        forall i | i in run[k][b] ensures i in run[k-1][b] {}
      }
    }
  }

  /** Who is still with its choice at the end scores no lower with it than with any partner that had room. */
  lemma ChoiceIsBest(sources: seq<Node>, targets: seq<Node>, score: (Node, Node) -> nat, capacity: nat, run: seq<Bins>,
                     b: nat, item: nat, c: nat)
    requires Seating(sources, targets, score, capacity, run) && b < |run[0]| && c < |run[0]|
    requires run[0][b] != [] && b < |run[|run|-1]| && item in run[|run|-1][b]
    ensures item in run[0][b] && ValidItem(sources, targets, item)
    ensures FullBefore(sources, targets, capacity, run[0], c, item)
            || PairScore(sources, targets, score, item, b) >= PairScore(sources, targets, score, item, c)
  {
    ChosenBinsKeep(sources, targets, score, run, |run| - 1, b);
    var k :| 0 <= k < |run[0][b]| && run[0][b][k] == item;
    if c != b && !FullBefore(sources, targets, capacity, run[0], c, item) {
      assert Prefers(sources, targets, score, run[0][b][k], b, c);
    }
  }

  /** The first by name has a best partner, unless it was moved. */
  lemma FirstNamedIsBest(sources: seq<Node>, targets: seq<Node>, score: (Node, Node) -> nat, capacity: nat,
                         run: seq<Bins>, b: nat, item: nat, c: nat)
    requires Seating(sources, targets, score, capacity, run) && b < |run[0]| && c < |run[0]|
    requires run[0][b] != [] && b < |run[|run|-1]| && item in run[|run|-1][b] && ValidItem(sources, targets, item)
    requires forall i: nat | ValidItem(sources, targets, i) ::
               !NameLess(ItemName(sources, targets, i), ItemName(sources, targets, item))
    ensures PairScore(sources, targets, score, item, b) >= PairScore(sources, targets, score, item, c)
  {
    ChoiceIsBest(sources, targets, score, capacity, run, b, item, c);
  }
}
