/** The backup planner: queues of candidate blocks per source, drained batch by batch by the targets. */
module BackupPlanner {
  import opened Common
  import opened Directory
  import opened Pairing
  import opened Seqs
  import opened BackupReport

  /** One answered pull: blocks of one namespace to copy from one source. */
  datatype Batch = Batch(source: Node, ns: string, hashes: seq<Hash>)

  // ------------------------------------------------------------ shards

  /** The targets paired with `source`. */
  function PeersIn(pairs: seq<Pair>, source: Node): seq<Node> {
    if pairs == [] then []
    else (if pairs[0].0 == source then [pairs[0].1] else []) + PeersIn(pairs[1..], source)
  }

  /** The sources paired with `target`. */
  function SourcesIn(pairs: seq<Pair>, target: Node): seq<Node> {
    if pairs == [] then []
    else (if pairs[0].1 == target then [pairs[0].0] else []) + SourcesIn(pairs[1..], target)
  }

  predicate Outranks(w: World, hash: Hash, a: Node, b: Node) {
    w.blockScore(a, hash) > w.blockScore(b, hash)
    || (w.blockScore(a, hash) == w.blockScore(b, hash) && NameLess(b, a))
  }

  /** The peer with the highest score, the greater name on equal scores. */
  function Winner(w: World, peers: seq<Node>, hash: Hash): (n: Node)
    requires peers != []
    ensures n in peers
  {
    if |peers| == 1 then peers[0]
    else
      var n := Winner(w, peers[..|peers|-1], hash);
      if Outranks(w, hash, n, peers[|peers|-1]) then n else peers[|peers|-1]
  }

  predicate OwnsBlock(w: World, peers: seq<Node>, target: Node, hash: Hash) {
    |peers| <= 1 || Winner(w, peers, hash) == target
  }

  lemma OutranksTransitive(w: World, hash: Hash, a: Node, b: Node, c: Node)
    requires Outranks(w, hash, a, b) && Outranks(w, hash, b, c)
    ensures Outranks(w, hash, a, c)
  {
    if NameLess(b, a) && NameLess(c, b) { NameTransitive(c, b, a); }
  }

  /** The winner outranks every other peer. */
  lemma {:induction false} WinnerOutranks(w: World, peers: seq<Node>, hash: Hash, t: Node)
    requires t in peers
    ensures t == Winner(w, peers, hash) || Outranks(w, hash, Winner(w, peers, hash), t)
  {
    if |peers| > 1 {
      var front, last := peers[..|peers|-1], peers[|peers|-1];
      var n := Winner(w, front, hash);
      NameTotal(n, last);
      if t in front {
        WinnerOutranks(w, front, hash, t);
        if !Outranks(w, hash, n, last) && n != last && t != n { OutranksTransitive(w, hash, last, n, t); }
      }
    }
  }

  ghost predicate OutranksAll(w: World, peers: seq<Node>, hash: Hash, t: Node) {
    forall p | p in peers :: p == t || Outranks(w, hash, t, p)
  }

  lemma OutranksOneWay(w: World, hash: Hash, a: Node, b: Node)
    requires Outranks(w, hash, a, b)
    ensures !Outranks(w, hash, b, a) && a != b
  {
    if NameLess(b, a) { NameAsymmetric(b, a); }
  }

  /** Of all targets paired with a source, exactly one may take a given block: the one that outranks all others. */
  lemma OneTargetOwnsBlock(w: World, peers: seq<Node>, hash: Hash, t: Node)
    requires t in peers
    ensures OwnsBlock(w, peers, t, hash) <==> OutranksAll(w, peers, hash, t)
    ensures OwnsBlock(w, peers, t, hash) <==>
            forall p | p in peers :: p == t || w.blockScore(t, hash) > w.blockScore(p, hash)
                                     || (w.blockScore(t, hash) == w.blockScore(p, hash) && NameLess(p, t))
    ensures OwnsBlock(w, peers, t, hash) <==> t == Winner(w, peers, hash)
  {
    var n := Winner(w, peers, hash);
    forall p | p in peers ensures p == n || Outranks(w, hash, n, p) { WinnerOutranks(w, peers, hash, p); }
    if OutranksAll(w, peers, hash, t) && t != n { OutranksOneWay(w, hash, t, n); }
  }

  /** The owner of a block does not depend on the order or repetition of the peers. */
  lemma WinnerIgnoresOrder(w: World, a: seq<Node>, b: seq<Node>, hash: Hash)
    requires a != [] && b != [] && forall p :: p in a <==> p in b
    ensures Winner(w, a, hash) == Winner(w, b, hash)
  {
    var n := Winner(w, a, hash);
    OneTargetOwnsBlock(w, a, hash, n);
    OneTargetOwnsBlock(w, b, hash, n);
  }

  // ------------------------------------------------------------ one batch

  function SaturatingMul(a: nat, b: nat): nat { Min(a * b, U64_MAX) }

  function SaturatingAdd(a: nat, b: nat): nat { Min(a + b, U64_MAX) }

  /** Where a scan over one queue stands. */
  datatype Progress = Progress(kept: seq<Hash>, taken: seq<Hash>, full: bool)

  function ScanNext(w: World, source: Node, peers: seq<Node>, target: Node, g: Group, maxBytes: U64, p: Progress,
                    hash: Hash): Progress {
    if p.full || !OwnsBlock(w, peers, target, hash) then p.(kept := p.kept + [hash])
    else if !Dispatchable(w, source, BlockKey(g.ns, hash)) then p
    else if p.taken != [] && SaturatingAdd(SaturatingMul(g.blockBytes, |p.taken|), g.blockBytes) > maxBytes then
      p.(full := true, kept := p.kept + [hash])
    else p.(taken := p.taken + [hash])
  }

  function ScanQueue(w: World, source: Node, peers: seq<Node>, target: Node, g: Group, maxBytes: U64,
                     hashes: seq<Hash>): Progress {
    if hashes == [] then Progress([], [], false)
    else
      ScanNext(w, source, peers, target, g, maxBytes,
               ScanQueue(w, source, peers, target, g, maxBytes, hashes[..|hashes|-1]), hashes[|hashes|-1])
  }

  /** Scan the groups in order up to the first that yields blocks; the rest stays as it is. */
  function TakeGroups(w: World, source: Node, peers: seq<Node>, target: Node, maxBytes: U64, groups: seq<Group>)
    : (seq<Group>, Option<Batch>)
  {
    if groups == [] then ([], None)
    else
      var g := groups[0];
      var p := ScanQueue(w, source, peers, target, g, maxBytes, g.hashes);
      var first := if p.kept == [] then [] else [g.(hashes := p.kept)];
      if p.taken != [] then (first + NonEmpty(groups[1..]), Some(Batch(source, g.ns, p.taken)))
      else
        var (rest, batch) := TakeGroups(w, source, peers, target, maxBytes, groups[1..]);
        (first + rest, batch)
  }

  // ------------------------------------------------------------ one scan, exactly

  /** The blocks of a queue this target may copy now. */
  function Wanted(w: World, source: Node, peers: seq<Node>, target: Node, ns: string): Hash -> bool {
    (h: Hash) => OwnsBlock(w, peers, target, h) && Dispatchable(w, source, BlockKey(ns, h))
  }

  /** `n` blocks and one more would exceed the budget; the largest budget is no limit. */
  predicate Exceeds(blockBytes: U64, n: nat, maxBytes: U64) { maxBytes < U64_MAX && blockBytes * (n + 1) > maxBytes }

  lemma BudgetExact(blockBytes: U64, n: nat, maxBytes: U64)
    ensures SaturatingAdd(SaturatingMul(blockBytes, n), blockBytes) > maxBytes <==> Exceeds(blockBytes, n, maxBytes)
  {
    assert blockBytes * (n + 1) == blockBytes * n + blockBytes;
  }

  /** Each old entry went to exactly one of the three lists, and each list keeps the queue's order. */
  ghost predicate Split(hashes: seq<Hash>, kept: seq<Hash>, taken: seq<Hash>, dropped: seq<Hash>) {
    if hashes == [] then kept == [] && taken == [] && dropped == []
    else
      var front, last := hashes[..|hashes|-1], hashes[|hashes|-1];
      || (kept != [] && kept[|kept|-1] == last && Split(front, kept[..|kept|-1], taken, dropped))
      || (taken != [] && taken[|taken|-1] == last && Split(front, kept, taken[..|taken|-1], dropped))
      || (dropped != [] && dropped[|dropped|-1] == last && Split(front, kept, taken, dropped[..|dropped|-1]))
  }

  lemma SplitGrows(hashes: seq<Hash>, kept: seq<Hash>, taken: seq<Hash>, dropped: seq<Hash>, h: Hash)
    requires Split(hashes, kept, taken, dropped)
    ensures Split(hashes + [h], kept + [h], taken, dropped)
    ensures Split(hashes + [h], kept, taken + [h], dropped)
    ensures Split(hashes + [h], kept, taken, dropped + [h])
  {
    var all := hashes + [h];
    assert all[..|all|-1] == hashes;
    assert (kept + [h])[..|kept|] == kept && (taken + [h])[..|taken|] == taken
           && (dropped + [h])[..|dropped|] == dropped;
  }

  ghost function DroppedBy(w: World, source: Node, peers: seq<Node>, target: Node, g: Group, maxBytes: U64,
                           hashes: seq<Hash>): seq<Hash> {
    if hashes == [] then []
    else
      var front, last := hashes[..|hashes|-1], hashes[|hashes|-1];
      var p := ScanQueue(w, source, peers, target, g, maxBytes, front);
      DroppedBy(w, source, peers, target, g, maxBytes, front)
      + if !p.full && OwnsBlock(w, peers, target, last)
          && !Dispatchable(w, source, BlockKey(g.ns, last)) then [last] else []
  }

  lemma {:induction false} ScanSound(w: World, source: Node, peers: seq<Node>, target: Node, g: Group, maxBytes: U64,
                                     hashes: seq<Hash>)
    ensures forall h | h in DroppedBy(w, source, peers, target, g, maxBytes, hashes) ::
              !Dispatchable(w, source, BlockKey(g.ns, h))
    ensures forall h | h in ScanQueue(w, source, peers, target, g, maxBytes, hashes).taken ::
              Wanted(w, source, peers, target, g.ns)(h)
  {
    if hashes != [] { ScanSound(w, source, peers, target, g, maxBytes, hashes[..|hashes|-1]); }
  }

  /** The step of a scan on one entry, seen from the three lists. */
  lemma ScanStep(w: World, source: Node, peers: seq<Node>, target: Node, g: Group, maxBytes: U64, front: seq<Hash>,
                 h: Hash)
    ensures var p := ScanQueue(w, source, peers, target, g, maxBytes, front);
            var q := ScanQueue(w, source, peers, target, g, maxBytes, front + [h]);
            var d := DroppedBy(w, source, peers, target, g, maxBytes, front);
            var e := DroppedBy(w, source, peers, target, g, maxBytes, front + [h]);
            || (q.kept == p.kept + [h] && q.taken == p.taken && e == d)
            || (q.kept == p.kept && q.taken == p.taken + [h] && e == d)
            || (q.kept == p.kept && q.taken == p.taken && e == d + [h])
  {
    assert (front + [h])[..|front|] == front;
  }

  /** A scan keeps, takes or drops each entry. */
  lemma {:induction false} ScanSplits(w: World, source: Node, peers: seq<Node>, target: Node, g: Group, maxBytes: U64,
                                      hashes: seq<Hash>)
    ensures var p := ScanQueue(w, source, peers, target, g, maxBytes, hashes);
            Split(hashes, p.kept, p.taken, DroppedBy(w, source, peers, target, g, maxBytes, hashes))
  {
    if hashes != [] {
      var front, last := hashes[..|hashes|-1], hashes[|hashes|-1];
      ScanSplits(w, source, peers, target, g, maxBytes, front);
      assert hashes == front + [last];
      ScanSplitsNext(w, source, peers, target, g, maxBytes, front, last);
    }
  }

  lemma ScanSplitsNext(w: World, source: Node, peers: seq<Node>, target: Node, g: Group, maxBytes: U64,
                       front: seq<Hash>, last: Hash)
    requires var p := ScanQueue(w, source, peers, target, g, maxBytes, front);
             Split(front, p.kept, p.taken, DroppedBy(w, source, peers, target, g, maxBytes, front))
    ensures var p := ScanQueue(w, source, peers, target, g, maxBytes, front + [last]);
            Split(front + [last], p.kept, p.taken, DroppedBy(w, source, peers, target, g, maxBytes, front + [last]))
  {
    var p := ScanQueue(w, source, peers, target, g, maxBytes, front);
    SplitGrows(front, p.kept, p.taken, DroppedBy(w, source, peers, target, g, maxBytes, front), last);
    ScanStep(w, source, peers, target, g, maxBytes, front, last);
  }

  lemma {:induction false} ScanTakesPrefix(w: World, source: Node, peers: seq<Node>, target: Node, g: Group,
                                           maxBytes: U64, hashes: seq<Hash>)
    ensures var p := ScanQueue(w, source, peers, target, g, maxBytes, hashes);
            var wanted := Select(hashes, Wanted(w, source, peers, target, g.ns));
            && p.taken <= wanted
            && (p.full <==> p.taken != wanted)
            && (p.full ==> p.taken != [] && Exceeds(g.blockBytes, |p.taken|, maxBytes))
            && (|p.taken| > 1 ==> !Exceeds(g.blockBytes, |p.taken| - 1, maxBytes))
  {
    if hashes != [] {
      var front := hashes[..|hashes|-1];
      ScanTakesPrefix(w, source, peers, target, g, maxBytes, front);
      var p := ScanQueue(w, source, peers, target, g, maxBytes, front);
      BudgetExact(g.blockBytes, |p.taken|, maxBytes);
    }
  }

  /**
   The blocks taken are the oldest wanted ones: a single block or as many as fit the budget, and a
   wanted block stays behind only because one more would have exceeded it.
   */
  lemma ScanTakesOldest(w: World, source: Node, peers: seq<Node>, target: Node, g: Group, maxBytes: U64,
                        hashes: seq<Hash>)
    ensures var p := ScanQueue(w, source, peers, target, g, maxBytes, hashes);
            var wanted := Select(hashes, Wanted(w, source, peers, target, g.ns));
            && p.taken <= wanted && (p.full <==> p.taken != wanted)
            && (p.full ==> p.taken != [] && maxBytes < U64_MAX && g.blockBytes * (|p.taken| + 1) > maxBytes)
            && (|p.taken| > 1 ==> maxBytes == U64_MAX || g.blockBytes * |p.taken| <= maxBytes)
  {
    ScanTakesPrefix(w, source, peers, target, g, maxBytes, hashes);
  }

  // ------------------------------------------------------------ conservation

  /** How often `key` is queued. */
  ghost function Queued(groups: seq<Group>, key: BlockKey): nat {
    if groups == [] then 0
    else (if groups[0].ns == key.ns then multiset(groups[0].hashes)[key.hash] else 0) + Queued(groups[1..], key)
  }

  ghost function InBatch(b: Option<Batch>, key: BlockKey): nat {
    if b.Some? && b.value.ns == key.ns then multiset(b.value.hashes)[key.hash] else 0
  }

  lemma {:induction false} QueuedAppend(a: seq<Group>, b: seq<Group>, key: BlockKey)
    ensures Queued(a + b, key) == Queued(a, key) + Queued(b, key)
  {
    if a == [] {
      assert a + b == b;
    } else {
      assert (a + b)[1..] == a[1..] + b;
      QueuedAppend(a[1..], b, key);
    }
  }

  lemma QueuedOne(g: Group, key: BlockKey)
    ensures Queued([g], key) == if g.ns == key.ns then multiset(g.hashes)[key.hash] else 0
  {
    assert [g][1..] == [];
  }

  lemma {:induction false} QueuedNonEmpty(groups: seq<Group>, key: BlockKey)
    ensures Queued(NonEmpty(groups), key) == Queued(groups, key)
  {
    if groups != [] {
      QueuedNonEmpty(groups[1..], key);
      QueuedOne(groups[0], key);
      QueuedAppend(if groups[0].hashes == [] then [] else [groups[0]], NonEmpty(groups[1..]), key);
    }
  }

  lemma {:induction false} SplitCounts(hashes: seq<Hash>, kept: seq<Hash>, taken: seq<Hash>, dropped: seq<Hash>,
                                       h: Hash)
    requires Split(hashes, kept, taken, dropped)
    ensures multiset(hashes)[h] == multiset(kept)[h] + multiset(taken)[h] + multiset(dropped)[h]
  {
    if hashes != [] {
      var front, last := hashes[..|hashes|-1], hashes[|hashes|-1];
      assert hashes == front + [last];
      if kept != [] && kept[|kept|-1] == last && Split(front, kept[..|kept|-1], taken, dropped) {
        SplitCounts(front, kept[..|kept|-1], taken, dropped, h);
        assert kept == kept[..|kept|-1] + [last];
      } else if taken != [] && taken[|taken|-1] == last && Split(front, kept, taken[..|taken|-1], dropped) {
        SplitCounts(front, kept, taken[..|taken|-1], dropped, h);
        assert taken == taken[..|taken|-1] + [last];
      } else {
        SplitCounts(front, kept, taken, dropped[..|dropped|-1], h);
        assert dropped == dropped[..|dropped|-1] + [last];
      }
    }
  }

  /** What a scan of one queue means for one block. */
  lemma ScanCounts(w: World, source: Node, peers: seq<Node>, target: Node, g: Group, maxBytes: U64, h: Hash)
    ensures var p := ScanQueue(w, source, peers, target, g, maxBytes, g.hashes);
            && (Dispatchable(w, source, BlockKey(g.ns, h)) ==>
                  multiset(g.hashes)[h] == multiset(p.kept)[h] + multiset(p.taken)[h])
            && multiset(p.kept)[h] <= multiset(g.hashes)[h]
            && (h in p.taken ==> Wanted(w, source, peers, target, g.ns)(h))
            && (p.taken == [] && h in g.hashes ==> !Wanted(w, source, peers, target, g.ns)(h))
  {
    var p := ScanQueue(w, source, peers, target, g, maxBytes, g.hashes);
    var dropped := DroppedBy(w, source, peers, target, g, maxBytes, g.hashes);
    ScanSplits(w, source, peers, target, g, maxBytes, g.hashes);
    ScanSound(w, source, peers, target, g, maxBytes, g.hashes);
    SplitCounts(g.hashes, p.kept, p.taken, dropped, h);
    assert multiset(dropped)[h] > 0 ==> h in dropped;
    ScanTakesPrefix(w, source, peers, target, g, maxBytes, g.hashes);
    SelectHas(g.hashes, Wanted(w, source, peers, target, g.ns), h);
  }

  /** A block leaves a queue only into the batch or because it is not worth copying; nothing else moves. */
  lemma {:induction false} TakeConserves(
    w: World, source: Node, peers: seq<Node>, target: Node, maxBytes: U64, groups: seq<Group>, key: BlockKey)
    ensures var (after, batch) := TakeGroups(w, source, peers, target, maxBytes, groups);
            && (Dispatchable(w, source, key) ==> Queued(after, key) + InBatch(batch, key) == Queued(groups, key))
            && Queued(after, key) <= Queued(groups, key)
            && (InBatch(batch, key) > 0 ==> Dispatchable(w, source, key) && OwnsBlock(w, peers, target, key.hash))
            && (batch.None? && Queued(groups, key) > 0 ==>
                  !(Dispatchable(w, source, key) && OwnsBlock(w, peers, target, key.hash)))
            && (batch.Some? ==> batch.value.source == source && batch.value.hashes != [])
  {
    if groups != [] {
      var g := groups[0];
      var p := ScanQueue(w, source, peers, target, g, maxBytes, g.hashes);
      var first := if p.kept == [] then [] else [g.(hashes := p.kept)];
      ScanCounts(w, source, peers, target, g, maxBytes, key.hash);
      QueuedOne(g.(hashes := p.kept), key);
      assert key == BlockKey(key.ns, key.hash);
      assert Queued(first, key) == if g.ns == key.ns then multiset(p.kept)[key.hash] else 0;
      if p.taken != [] {
        QueuedAppend(first, NonEmpty(groups[1..]), key);
        QueuedNonEmpty(groups[1..], key);
      } else {
        TakeConserves(w, source, peers, target, maxBytes, groups[1..], key);
        QueuedAppend(first, TakeGroups(w, source, peers, target, maxBytes, groups[1..]).0, key);
      }
    }
  }

  /** No block of the group is due to this target. */
  ghost predicate NothingWanted(w: World, source: Node, peers: seq<Node>, target: Node, g: Group) {
    Select(g.hashes, Wanted(w, source, peers, target, g.ns)) == []
  }

  /** Each group with what a scan keeps of it. */
  ghost function Scanned(w: World, source: Node, peers: seq<Node>, target: Node, maxBytes: U64,
                         groups: seq<Group>): seq<Group> {
    if groups == [] then []
    else
      var g := groups[0];
      [g.(hashes := ScanQueue(w, source, peers, target, g, maxBytes, g.hashes).kept)]
      + Scanned(w, source, peers, target, maxBytes, groups[1..])
  }

  lemma TakesWhenWanted(w: World, source: Node, peers: seq<Node>, target: Node, g: Group, maxBytes: U64)
    ensures ScanQueue(w, source, peers, target, g, maxBytes, g.hashes).taken == [] <==>
              NothingWanted(w, source, peers, target, g)
  {
    ScanTakesPrefix(w, source, peers, target, g, maxBytes, g.hashes);
  }

  /** The queue after a take that stopped behind the first `n` groups. */
  ghost function LeftBehind(w: World, source: Node, peers: seq<Node>, target: Node, maxBytes: U64, groups: seq<Group>,
                            n: nat): seq<Group>
    requires n <= |groups|
  {
    NonEmpty(Scanned(w, source, peers, target, maxBytes, groups[..n])) + NonEmpty(groups[n..])
  }

  lemma LeftBehindMore(w: World, source: Node, peers: seq<Node>, target: Node, maxBytes: U64, groups: seq<Group>,
                       n: nat)
    requires 0 < n <= |groups|
    ensures var g := groups[0];
            var kept := ScanQueue(w, source, peers, target, g, maxBytes, g.hashes).kept;
            LeftBehind(w, source, peers, target, maxBytes, groups, n) ==
            (if kept == [] then [] else [g.(hashes := kept)])
                + LeftBehind(w, source, peers, target, maxBytes, groups[1..], n - 1)
  {
    var g := groups[0];
    var kept := g.(hashes := ScanQueue(w, source, peers, target, g, maxBytes, g.hashes).kept);
    assert groups[..n][1..] == groups[1..][..n-1] && groups[1..][n-1..] == groups[n..];
    var rest := Scanned(w, source, peers, target, maxBytes, groups[1..][..n-1]);
    assert ([kept] + rest)[1..] == rest;
    Associative(if kept.hashes == [] then [] else [kept], NonEmpty(rest), NonEmpty(groups[n..]));
  }

  /** A take stopped at group `i`, or ran through when `i` is the number of groups. */
  ghost predicate StoppedAt(w: World, source: Node, peers: seq<Node>, target: Node, maxBytes: U64, groups: seq<Group>,
                            i: nat)
    requires i <= |groups|
  {
    var (after, batch) := TakeGroups(w, source, peers, target, maxBytes, groups);
    && after == LeftBehind(w, source, peers, target, maxBytes, groups, Min(i + 1, |groups|))
    && batch == if i == |groups| then None
                else Some(Batch(source, groups[i].ns,
                                ScanQueue(w, source, peers, target, groups[i], maxBytes, groups[i].hashes).taken))
  }

  lemma StopsNow(w: World, source: Node, peers: seq<Node>, target: Node, maxBytes: U64, groups: seq<Group>)
    requires groups != [] && !NothingWanted(w, source, peers, target, groups[0])
    ensures StoppedAt(w, source, peers, target, maxBytes, groups, 0)
  {
    TakesWhenWanted(w, source, peers, target, groups[0], maxBytes);
    LeftBehindMore(w, source, peers, target, maxBytes, groups, 1);
    assert groups[1..][..0] == [] && groups[1..][0..] == groups[1..];
  }

  lemma LeavesLater(w: World, source: Node, peers: seq<Node>, target: Node, maxBytes: U64, groups: seq<Group>, n: nat)
    requires 0 < n <= |groups| && NothingWanted(w, source, peers, target, groups[0])
    requires TakeGroups(w, source, peers, target, maxBytes, groups[1..]).0 ==
             LeftBehind(w, source, peers, target, maxBytes, groups[1..], n - 1)
    ensures TakeGroups(w, source, peers, target, maxBytes, groups).0 ==
            LeftBehind(w, source, peers, target, maxBytes, groups, n)
    ensures TakeGroups(w, source, peers, target, maxBytes, groups).1 ==
            TakeGroups(w, source, peers, target, maxBytes, groups[1..]).1
  {
    TakePasses(w, source, peers, target, maxBytes, groups);
    LeftBehindMore(w, source, peers, target, maxBytes, groups, n);
  }

  lemma StopsLater(w: World, source: Node, peers: seq<Node>, target: Node, maxBytes: U64, groups: seq<Group>, i: nat)
    requires groups != [] && NothingWanted(w, source, peers, target, groups[0])
    requires i < |groups| && StoppedAt(w, source, peers, target, maxBytes, groups[1..], i)
    ensures StoppedAt(w, source, peers, target, maxBytes, groups, i + 1)
  {
    LeavesLater(w, source, peers, target, maxBytes, groups, Min(i + 2, |groups|));
    assert i + 1 < |groups| ==> groups[1..][i] == groups[i + 1];
  }

  /** A group without a wanted block is passed over. */
  lemma TakePasses(w: World, source: Node, peers: seq<Node>, target: Node, maxBytes: U64, groups: seq<Group>)
    requires groups != [] && NothingWanted(w, source, peers, target, groups[0])
    ensures var g := groups[0];
            var kept := ScanQueue(w, source, peers, target, g, maxBytes, g.hashes).kept;
            var (rest, batch) := TakeGroups(w, source, peers, target, maxBytes, groups[1..]);
            TakeGroups(w, source, peers, target, maxBytes, groups) ==
            ((if kept == [] then [] else [g.(hashes := kept)]) + rest, batch)
  {
    TakesWhenWanted(w, source, peers, target, groups[0], maxBytes);
  }

  lemma NothingBefore(w: World, source: Node, peers: seq<Node>, target: Node, groups: seq<Group>, k: nat)
    requires groups != [] && k < |groups| && NothingWanted(w, source, peers, target, groups[0])
    requires forall j | 0 <= j < k :: NothingWanted(w, source, peers, target, groups[1..][j])
    ensures forall j | 0 <= j <= k :: NothingWanted(w, source, peers, target, groups[j])
    ensures k + 1 < |groups| ==> groups[1..][k] == groups[k+1]
  {
    forall j | 0 <= j <= k ensures NothingWanted(w, source, peers, target, groups[j]) {
      if j > 0 { assert groups[1..][j-1] == groups[j]; }
    }
  }

  /**
   The batch is what a scan takes from the first group that has a wanted block, and there is none exactly when no
   group has one. Groups up to that one keep what their scan kept, later groups are untouched; empty ones go.
   */
  lemma {:induction false} TakesFirstWanted(
    w: World, source: Node, peers: seq<Node>, target: Node, maxBytes: U64, groups: seq<Group>) returns (i: nat)
    ensures i <= |groups| && forall j | 0 <= j < i :: NothingWanted(w, source, peers, target, groups[j])
    ensures i < |groups| ==> !NothingWanted(w, source, peers, target, groups[i])
    ensures StoppedAt(w, source, peers, target, maxBytes, groups, i)
  {
    i := 0;
    if groups != [] {
      if NothingWanted(w, source, peers, target, groups[0]) {
        var k := TakesFirstWanted(w, source, peers, target, maxBytes, groups[1..]);
        StopsLater(w, source, peers, target, maxBytes, groups, k);
        NothingBefore(w, source, peers, target, groups, k);
        i := k + 1;
      } else {
        StopsNow(w, source, peers, target, maxBytes, groups);
      }
    }
  }

  // ------------------------------------------------------------ one pull

  datatype State = State(candidates: map<Node, seq<Group>>, cursor: map<Node, nat>)

  function QueueOf(candidates: map<Node, seq<Group>>, s: Node): seq<Group> {
    if s in candidates then candidates[s] else []
  }

  function WorldPairs(w: World): seq<Pair> { Pairs(w.sources, w.targets, w.pairScore) }

  function TakeSource(w: World, pairs: seq<Pair>, target: Node, maxBytes: U64, candidates: map<Node, seq<Group>>,
                      source: Node)
    : (map<Node, seq<Group>>, Option<Batch>)
  {
    if source !in candidates then (candidates, None)
    else
      var (groups, batch) := TakeGroups(w, source, PeersIn(pairs, source), target, maxBytes, candidates[source]);
      (if groups == [] then candidates - {source} else candidates[source := groups], batch)
  }

  /** Whose turn it is `offset` sources after the cursor. */
  function Turn(sources: seq<Node>, start: nat, offset: nat): (s: Node)
    requires sources != []
    ensures s in sources
  {
    sources[(start + offset) % |sources|]
  }

  /** Try the target's sources round robin from `offset` on; the answer carries the index that yielded. */
  function TrySources(
    w: World, pairs: seq<Pair>, target: Node, maxBytes: U64, sources: seq<Node>, start: nat, offset: nat,
    candidates: map<Node, seq<Group>>): (map<Node, seq<Group>>, Option<(Batch, nat)>)
    requires sources != [] && offset <= |sources|
    decreases |sources| - offset
  {
    if offset == |sources| then (candidates, None)
    else
      var (candidates', batch) := TakeSource(w, pairs, target, maxBytes, candidates, Turn(sources, start, offset));
      if batch.Some? then (candidates', Some((batch.value, (start + offset) % |sources|)))
      else TrySources(w, pairs, target, maxBytes, sources, start, offset + 1, candidates')
  }

  function Live(w: World, st: State): State {
    State(map s | s in st.candidates && s in w.sources :: st.candidates[s],
          map t | t in st.cursor && t in w.targets :: st.cursor[t])
  }

  /** A pull by a current target, round robin over its sources. */
  function Serve(w: World, st: State, target: Node, maxBytes: U64): (State, Option<Batch>) {
    var sources := SourcesIn(WorldPairs(w), target);
    if sources == [] then (st, None) else Answered(w, WorldPairs(w), st, target, maxBytes, sources)
  }

  /** One round over the sources from the target's cursor; the cursor moves behind the source that answered. */
  function Answered(w: World, pairs: seq<Pair>, st: State, target: Node, maxBytes: U64, sources: seq<Node>)
    : (State, Option<Batch>)
    requires sources != []
  {
    var start := if target in st.cursor then st.cursor[target] else 0;
    var (candidates, answer) := TrySources(w, pairs, target, maxBytes, sources, start, 0, st.candidates);
    if answer.None? then (State(candidates, st.cursor), None)
    else (State(candidates, st.cursor[target := answer.value.1 + 1]), Some(answer.value.0))
  }

  function Pull(w: World, st: State, target: Node, maxBytes: U64): (State, Option<Batch>) {
    if target in w.targets then Serve(w, Live(w, st), target, maxBytes) else (Live(w, st), None)
  }

  ghost function Delivered(b: Option<Batch>, s: Node, key: BlockKey): nat {
    if b.Some? && b.value.source == s then InBatch(b, key) else 0
  }

  /** The target may copy this queued block of `s` now. */
  ghost predicate Due(w: World, target: Node, s: Node, key: BlockKey) {
    Dispatchable(w, s, key) && OwnsBlock(w, PeersIn(WorldPairs(w), s), target, key.hash)
  }

  lemma {:induction false} SourcesInPairs(pairs: seq<Pair>, target: Node, s: Node)
    ensures s in SourcesIn(pairs, target) <==> (s, target) in pairs
  {
    if pairs != [] {
      SourcesInPairs(pairs[1..], target, s);
      assert (s, target) in pairs <==> (s, target) == pairs[0] || (s, target) in pairs[1..];
    }
  }

  lemma {:induction false} PeersInPairs(pairs: seq<Pair>, s: Node, t: Node)
    ensures t in PeersIn(pairs, s) <==> (s, t) in pairs
  {
    if pairs != [] {
      PeersInPairs(pairs[1..], s, t);
      assert (s, t) in pairs <==> (s, t) == pairs[0] || (s, t) in pairs[1..];
    }
  }

  lemma TakeSourceMoves(
    w: World, target: Node, maxBytes: U64, candidates: map<Node, seq<Group>>, source: Node, s: Node, key: BlockKey)
    ensures var (after, batch) := TakeSource(w, WorldPairs(w), target, maxBytes, candidates, source);
            && (Dispatchable(w, s, key) ==>
                  Queued(QueueOf(after, s), key) + Delivered(batch, s, key) == Queued(QueueOf(candidates, s), key))
            && Queued(QueueOf(after, s), key) <= Queued(QueueOf(candidates, s), key)
            && (Delivered(batch, s, key) > 0 ==> Due(w, target, s, key))
            && (batch.None? && s == source && Queued(QueueOf(candidates, s), key) > 0 ==> !Due(w, target, s, key))
            && (batch.Some? ==> batch.value.source == source)
  {
    if source in candidates {
      TakeConserves(w, source, PeersIn(WorldPairs(w), source), target, maxBytes, candidates[source], key);
    }
  }

  lemma {:induction false} TrySourcesMoves(
    w: World, target: Node, maxBytes: U64, sources: seq<Node>, start: nat, offset: nat,
    candidates: map<Node, seq<Group>>, s: Node, key: BlockKey)
    requires sources != [] && offset <= |sources|
    ensures var (after, answer) := TrySources(w, WorldPairs(w), target, maxBytes, sources, start, offset, candidates);
            var batch := if answer.None? then None else Some(answer.value.0);
            && (Dispatchable(w, s, key) ==>
                  Queued(QueueOf(after, s), key) + Delivered(batch, s, key) == Queued(QueueOf(candidates, s), key))
            && Queued(QueueOf(after, s), key) <= Queued(QueueOf(candidates, s), key)
            && (Delivered(batch, s, key) > 0 ==> Due(w, target, s, key))
            && (answer.Some? ==> batch.value.source in sources)
            && (answer.None? && (exists o | offset <= o < |sources| :: Turn(sources, start, o) == s) ==>
                  Queued(QueueOf(after, s), key) == 0 || !Due(w, target, s, key))
    decreases |sources| - offset
  {
    if offset < |sources| {
      var source := Turn(sources, start, offset);
      TakeSourceMoves(w, target, maxBytes, candidates, source, s, key);
      var (candidates', batch) := TakeSource(w, WorldPairs(w), target, maxBytes, candidates, source);
      if batch.None? {
        TrySourcesMoves(w, target, maxBytes, sources, start, offset + 1, candidates', s, key);
      }
    }
  }

  /** A full round visits every source, wherever the cursor stands. */
  lemma RoundVisits(sources: seq<Node>, start: nat, s: Node)
    requires s in sources
    ensures exists o | 0 <= o < |sources| :: Turn(sources, start, o) == s
  {
    var n := |sources|;
    var i :| 0 <= i < n && sources[i] == s;
    var r, q := start % n, start / n;
    assert start == n * q + r;
    var o: nat := if r <= i then i - r else i + n - r;
    if r <= i {
      DivModUnique(n, q, i);
    } else {
      DivModUnique(n, q + 1, i);
      assert n * (q + 1) == n * q + n;
    }
    assert Turn(sources, start, o) == s;
  }

  /** One pull: what it delivers leaves the queue, goes to the right target, and `None` means nothing was due. */
  lemma PullMoves(w: World, st: State, target: Node, maxBytes: U64, s: Node, key: BlockKey)
    requires s in w.sources
    ensures var (st', batch) := Pull(w, st, target, maxBytes);
            && (Dispatchable(w, s, key) ==>
                  Queued(QueueOf(st'.candidates, s), key) + Delivered(batch, s, key) ==
                    Queued(QueueOf(st.candidates, s), key))
            && Queued(QueueOf(st'.candidates, s), key) <= Queued(QueueOf(st.candidates, s), key)
            && (Delivered(batch, s, key) > 0 ==> Due(w, target, s, key))
            && (batch.Some? ==> (batch.value.source, target) in WorldPairs(w))
            && (batch.None? && target in w.targets && (s, target) in WorldPairs(w) ==>
                  Queued(QueueOf(st'.candidates, s), key) == 0 || !Due(w, target, s, key))
  {
    var pairs, live := WorldPairs(w), Live(w, st);
    var sources := SourcesIn(pairs, target);
    SourcesInPairs(pairs, target, s);
    if target in w.targets && sources != [] {
      var start := if target in live.cursor then live.cursor[target] else 0;
      TrySourcesMoves(w, target, maxBytes, sources, start, 0, live.candidates, s, key);
      if s in sources {
        RoundVisits(sources, start, s);
      }
      var answer := TrySources(w, pairs, target, maxBytes, sources, start, 0, live.candidates).1;
      if answer.Some? { SourcesInPairs(pairs, target, answer.value.0.source); }
    }
  }

  // ------------------------------------------------------------ whole runs

  /** The targets' pulls between two reports, in the order the planner serves them. */
  type Pulls = seq<(Node, U64)>

  ghost function RunState(w: World, st: State, pulls: Pulls): State {
    if pulls == [] then st
    else Pull(w, RunState(w, st, pulls[..|pulls|-1]), pulls[|pulls|-1].0, pulls[|pulls|-1].1).0
  }

  /** The answer to pull number `i`. */
  ghost function Answer(w: World, st: State, pulls: Pulls, i: nat): Option<Batch>
    requires i < |pulls|
  {
    Pull(w, RunState(w, st, pulls[..i]), pulls[i].0, pulls[i].1).1
  }

  ghost function TotalDelivered(w: World, st: State, pulls: Pulls, s: Node, key: BlockKey): nat {
    if pulls == [] then 0
    else
      TotalDelivered(w, st, pulls[..|pulls|-1], s, key)
      + Delivered(Pull(w, RunState(w, st, pulls[..|pulls|-1]), pulls[|pulls|-1].0, pulls[|pulls|-1].1).1, s, key)
  }

  lemma {:induction false} RunConserves(w: World, st: State, pulls: Pulls, s: Node, key: BlockKey)
    requires s in w.sources
    ensures Dispatchable(w, s, key) ==>
              Queued(QueueOf(RunState(w, st, pulls).candidates, s), key) + TotalDelivered(w, st, pulls, s, key)
              == Queued(QueueOf(st.candidates, s), key)
    ensures !Dispatchable(w, s, key) ==> TotalDelivered(w, st, pulls, s, key) == 0
  {
    if pulls != [] {
      var front, last := pulls[..|pulls|-1], pulls[|pulls|-1];
      RunConserves(w, st, front, s, key);
      PullMoves(w, RunState(w, st, front), last.0, last.1, s, key);
    }
  }

  lemma PullShrinks(w: World, st: State, target: Node, maxBytes: U64, s: Node, key: BlockKey)
    requires s in w.sources
    ensures Queued(QueueOf(Pull(w, st, target, maxBytes).0.candidates, s), key)
            <= Queued(QueueOf(st.candidates, s), key)
  {
    PullMoves(w, st, target, maxBytes, s, key);
  }

  lemma NoneMeansNothingDue(w: World, st: State, target: Node, maxBytes: U64, s: Node, key: BlockKey)
    requires s in w.sources && target in w.targets && (s, target) in WorldPairs(w) && Due(w, target, s, key)
    requires Pull(w, st, target, maxBytes).1.None?
    ensures Queued(QueueOf(Pull(w, st, target, maxBytes).0.candidates, s), key) == 0
  {
    PullMoves(w, st, target, maxBytes, s, key);
  }

  /** An answer depends only on the pulls before it. */
  lemma AnswerSoFar(w: World, st: State, pulls: Pulls, n: nat, i: nat)
    requires i < n <= |pulls|
    ensures pulls[..n][i] == pulls[i] && Answer(w, st, pulls[..n], i) == Answer(w, st, pulls, i)
  {
    assert pulls[..n][..i] == pulls[..i];
  }

  /** A run of one more pull is that pull after the run. */
  lemma RunStep(w: World, st: State, pulls: Pulls, i: nat)
    requires i < |pulls|
    ensures RunState(w, st, pulls[..i+1]) == Pull(w, RunState(w, st, pulls[..i]), pulls[i].0, pulls[i].1).0
  {
    assert pulls[..i+1][..i] == pulls[..i];
  }

  ghost function QueuedAfter(w: World, st: State, pulls: Pulls, s: Node, key: BlockKey): nat {
    Queued(QueueOf(RunState(w, st, pulls).candidates, s), key)
  }

  /** Pulls only ever shorten a queue. */
  lemma {:induction false} QueuedShrinks(w: World, st: State, pulls: Pulls, n: nat, s: Node, key: BlockKey)
    requires s in w.sources && n <= |pulls|
    ensures QueuedAfter(w, st, pulls, s, key) <= QueuedAfter(w, st, pulls[..n], s, key)
  {
    var m := |pulls| - 1;
    if n <= m {
      QueuedShrinks(w, st, pulls[..m], n, s, key);
      assert pulls[..m][..n] == pulls[..n];
      PullShrinks(w, RunState(w, st, pulls[..m]), pulls[m].0, pulls[m].1, s, key);
    } else {
      assert pulls[..n] == pulls;
    }
  }

  /** Once a target has been told `None`, nothing of `s` is due to it any more, whoever pulls next. */
  lemma NothingDueAfterNone(w: World, st: State, pulls: Pulls, i: nat, t: Node, s: Node, key: BlockKey)
    requires Told(w, st, pulls, t, i) && t in w.targets
    requires s in w.sources && (s, t) in WorldPairs(w) && Due(w, t, s, key)
    ensures QueuedAfter(w, st, pulls, s, key) == 0
  {
    EmptyWhenTold(w, st, pulls, i, t, s, key);
    StaysEmpty(w, st, pulls, i + 1, s, key);
  }

  lemma StaysEmpty(w: World, st: State, pulls: Pulls, n: nat, s: Node, key: BlockKey)
    requires s in w.sources && n <= |pulls| && QueuedAfter(w, st, pulls[..n], s, key) == 0
    ensures QueuedAfter(w, st, pulls, s, key) == 0
  {
    QueuedShrinks(w, st, pulls, n, s, key);
  }

  lemma EmptyWhenTold(w: World, st: State, pulls: Pulls, i: nat, t: Node, s: Node, key: BlockKey)
    requires Told(w, st, pulls, t, i) && t in w.targets
    requires s in w.sources && (s, t) in WorldPairs(w) && Due(w, t, s, key)
    ensures i < |pulls| && QueuedAfter(w, st, pulls[..i+1], s, key) == 0
  {
    RunStep(w, st, pulls, i);
    NoneMeansNothingDue(w, RunState(w, st, pulls[..i]), t, pulls[i].1, s, key);
  }

  /** Pull `i` was made by `t` and answered `None`. */
  ghost predicate Told(w: World, st: State, pulls: Pulls, t: Node, i: nat) {
    i < |pulls| && pulls[i].0 == t && Answer(w, st, pulls, i).None?
  }

  ghost predicate EveryTargetTold(w: World, st: State, pulls: Pulls) {
    forall t | t in w.targets :: exists i: nat :: Told(w, st, pulls, t, i)
  }

  /**
   If every target pulls until it is told there is nothing left, each block of a live source that is
   worth copying is handed out exactly as often as it was queued, and no other block is handed out.
   */
  lemma DrainedExactly(w: World, st: State, pulls: Pulls, s: Node, key: BlockKey)
    requires Distinct(w.sources) && Distinct(w.targets) && w.targets != [] && s in w.sources
    requires EveryTargetTold(w, st, pulls)
    ensures TotalDelivered(w, st, pulls, s, key) ==
            if WorthCopying(w, s, key) then Queued(QueueOf(st.candidates, s), key) else 0
  {
    RunConserves(w, st, pulls, s, key);
    if Dispatchable(w, s, key) { NothingLeft(w, st, pulls, s, key); }
  }

  lemma NothingLeft(w: World, st: State, pulls: Pulls, s: Node, key: BlockKey)
    requires Distinct(w.sources) && Distinct(w.targets) && w.targets != [] && s in w.sources
    requires EveryTargetTold(w, st, pulls) && Dispatchable(w, s, key)
    ensures QueuedAfter(w, st, pulls, s, key) == 0
  {
    var t := WinningTarget(w, s, key);
    var i: nat :| Told(w, st, pulls, t, i);
    NothingDueAfterNone(w, st, pulls, i, t, s, key);
  }

  // ------------------------------------------------------------ every run of pulls comes to an end

  ghost function Entries(groups: seq<Group>): nat {
    if groups == [] then 0 else |groups[0].hashes| + Entries(groups[1..])
  }

  /** Entries queued for the listed sources. */
  ghost function Backlog(sources: seq<Node>, candidates: map<Node, seq<Group>>): nat {
    if sources == [] then 0 else Entries(QueueOf(candidates, sources[0])) + Backlog(sources[1..], candidates)
  }

  ghost function BatchSize(b: Option<Batch>): nat { if b.Some? then |b.value.hashes| else 0 }

  lemma {:induction false} EntriesAppend(a: seq<Group>, b: seq<Group>)
    ensures Entries(a + b) == Entries(a) + Entries(b)
  {
    if a == [] {
      assert a + b == b;
    } else {
      assert (a + b)[1..] == a[1..] + b;
      EntriesAppend(a[1..], b);
    }
  }

  lemma {:induction false} EntriesNonEmpty(groups: seq<Group>)
    ensures Entries(NonEmpty(groups)) == Entries(groups)
  {
    if groups != [] {
      EntriesNonEmpty(groups[1..]);
      EntriesAppend(if groups[0].hashes == [] then [] else [groups[0]], NonEmpty(groups[1..]));
      assert [groups[0]][1..] == [];
    }
  }

  lemma {:induction false} SplitLengths(hashes: seq<Hash>, kept: seq<Hash>, taken: seq<Hash>, dropped: seq<Hash>)
    requires Split(hashes, kept, taken, dropped)
    ensures |hashes| == |kept| + |taken| + |dropped|
  {
    if hashes != [] {
      var front, last := hashes[..|hashes|-1], hashes[|hashes|-1];
      if kept != [] && kept[|kept|-1] == last && Split(front, kept[..|kept|-1], taken, dropped) {
        SplitLengths(front, kept[..|kept|-1], taken, dropped);
      } else if taken != [] && taken[|taken|-1] == last && Split(front, kept, taken[..|taken|-1], dropped) {
        SplitLengths(front, kept, taken[..|taken|-1], dropped);
      } else {
        SplitLengths(front, kept, taken, dropped[..|dropped|-1]);
      }
    }
  }

  lemma {:induction false} TakeShrinks(w: World, source: Node, peers: seq<Node>, target: Node, maxBytes: U64,
                                       groups: seq<Group>)
    ensures var (after, batch) := TakeGroups(w, source, peers, target, maxBytes, groups);
            Entries(after) + BatchSize(batch) <= Entries(groups)
  {
    if groups != [] {
      var g := groups[0];
      var p := ScanQueue(w, source, peers, target, g, maxBytes, g.hashes);
      var first := if p.kept == [] then [] else [g.(hashes := p.kept)];
      ScanSplits(w, source, peers, target, g, maxBytes, g.hashes);
      SplitLengths(g.hashes, p.kept, p.taken, DroppedBy(w, source, peers, target, g, maxBytes, g.hashes));
      assert [g.(hashes := p.kept)][1..] == [];
      assert Entries(first) == |p.kept|;
      if p.taken != [] {
        EntriesAppend(first, NonEmpty(groups[1..]));
        EntriesNonEmpty(groups[1..]);
      } else {
        TakeShrinks(w, source, peers, target, maxBytes, groups[1..]);
        EntriesAppend(first, TakeGroups(w, source, peers, target, maxBytes, groups[1..]).0);
      }
    }
  }

  ghost predicate Shrunk(before: map<Node, seq<Group>>, after: map<Node, seq<Group>>, b: Option<Batch>) {
    && (forall s: Node :: Entries(QueueOf(after, s)) <= Entries(QueueOf(before, s)))
    && (b.Some? ==> b.value.hashes != []
                    && Entries(QueueOf(after, b.value.source)) < Entries(QueueOf(before, b.value.source)))
  }

  lemma ShrunkTwice(a: map<Node, seq<Group>>, b: map<Node, seq<Group>>, c: map<Node, seq<Group>>, batch: Option<Batch>)
    requires Shrunk(a, b, None) && Shrunk(b, c, batch)
    ensures Shrunk(a, c, batch)
  {
    forall s: Node ensures Entries(QueueOf(c, s)) <= Entries(QueueOf(a, s)) {
      assert Entries(QueueOf(b, s)) <= Entries(QueueOf(a, s));
    }
  }

  lemma TakeSourceShrinks(w: World, target: Node, maxBytes: U64, candidates: map<Node, seq<Group>>, source: Node)
    ensures var (after, batch) := TakeSource(w, WorldPairs(w), target, maxBytes, candidates, source);
            Shrunk(candidates, after, batch)
  {
    if source in candidates {
      TakeShrinks(w, source, PeersIn(WorldPairs(w), source), target, maxBytes, candidates[source]);
      TakeConserves(w, source, PeersIn(WorldPairs(w), source), target, maxBytes, candidates[source], BlockKey("", []));
    }
  }

  lemma {:induction false} TrySourcesShrinks(
    w: World, target: Node, maxBytes: U64, sources: seq<Node>, start: nat, offset: nat,
    candidates: map<Node, seq<Group>>)
    requires sources != [] && offset <= |sources|
    ensures ShrunkTo(candidates, TrySources(w, WorldPairs(w), target, maxBytes, sources, start, offset, candidates))
    decreases |sources| - offset
  {
    if offset < |sources| {
      var source := Turn(sources, start, offset);
      TakeSourceShrinks(w, target, maxBytes, candidates, source);
      var (candidates', batch) := TakeSource(w, WorldPairs(w), target, maxBytes, candidates, source);
      if batch.None? {
        TrySourcesShrinks(w, target, maxBytes, sources, start, offset + 1, candidates');
        ShrunkLater(candidates, candidates',
                    TrySources(w, WorldPairs(w), target, maxBytes, sources, start, offset + 1, candidates'));
      }
    }
  }

  /** `Shrunk` for the outcome of a round. */
  ghost predicate ShrunkTo(before: map<Node, seq<Group>>, r: (map<Node, seq<Group>>, Option<(Batch, nat)>)) {
    Shrunk(before, r.0, if r.1.None? then None else Some(r.1.value.0))
  }

  lemma ShrunkLater(a: map<Node, seq<Group>>, b: map<Node, seq<Group>>,
                    r: (map<Node, seq<Group>>, Option<(Batch, nat)>))
    requires Shrunk(a, b, None) && ShrunkTo(b, r)
    ensures ShrunkTo(a, r)
  {
    ShrunkTwice(a, b, r.0, if r.1.None? then None else Some(r.1.value.0));
  }

  lemma {:induction false} BacklogShrinks(sources: seq<Node>, before: map<Node, seq<Group>>,
                                          after: map<Node, seq<Group>>, b: Option<Batch>)
    requires Shrunk(before, after, b)
    ensures Backlog(sources, after) <= Backlog(sources, before)
    ensures b.Some? && b.value.source in sources ==> Backlog(sources, after) < Backlog(sources, before)
  {
    if sources != [] { BacklogShrinks(sources[1..], before, after, b); }
  }

  lemma {:induction false} BacklogSame(sources: seq<Node>, a: map<Node, seq<Group>>, b: map<Node, seq<Group>>)
    requires forall s | s in sources :: QueueOf(a, s) == QueueOf(b, s)
    ensures Backlog(sources, a) == Backlog(sources, b)
  {
    if sources != [] { BacklogSame(sources[1..], a, b); }
  }

  /** Every answered pull shortens the queues of the live sources, and no pull lengthens them. */
  lemma PullShortens(w: World, st: State, target: Node, maxBytes: U64)
    ensures var (st', batch) := Pull(w, st, target, maxBytes);
            Backlog(w.sources, st'.candidates) + (if batch.Some? then 1 else 0) <= Backlog(w.sources, st.candidates)
  {
    var live, sources := Live(w, st), SourcesIn(WorldPairs(w), target);
    BacklogSame(w.sources, live.candidates, st.candidates);
    if target in w.targets && sources != [] {
      var start := if target in live.cursor then live.cursor[target] else 0;
      TrySourcesShrinks(w, target, maxBytes, sources, start, 0, live.candidates);
      var (after, answer) := TrySources(w, WorldPairs(w), target, maxBytes, sources, start, 0, live.candidates);
      var batch := if answer.None? then None else Some(answer.value.0);
      BacklogShrinks(w.sources, live.candidates, after, batch);
      AnsweredFromPair(w, st, target, maxBytes);
      if batch.Some? { PairInRange(w.sources, w.targets, w.pairScore, (batch.value.source, target)); }
    }
  }

  /** How many of the pulls were answered. */
  ghost function AnsweredPulls(w: World, st: State, pulls: Pulls): nat {
    if pulls == [] then 0
    else
      AnsweredPulls(w, st, pulls[..|pulls|-1])
      + if Pull(w, RunState(w, st, pulls[..|pulls|-1]), pulls[|pulls|-1].0, pulls[|pulls|-1].1).1.Some? then 1 else 0
  }

  lemma {:induction false} AnsweredAtMostBacklog(w: World, st: State, pulls: Pulls)
    ensures Backlog(w.sources, RunState(w, st, pulls).candidates) + AnsweredPulls(w, st, pulls)
            <= Backlog(w.sources, st.candidates)
  {
    if pulls != [] {
      var front, last := pulls[..|pulls|-1], pulls[|pulls|-1];
      AnsweredAtMostBacklog(w, st, front);
      PullShortens(w, RunState(w, st, front), last.0, last.1);
    }
  }

  ghost function PullsBy(pulls: Pulls, t: Node): nat {
    if pulls == [] then 0 else PullsBy(pulls[..|pulls|-1], t) + if pulls[|pulls|-1].0 == t then 1 else 0
  }

  lemma {:induction false} ToldOrAnswered(w: World, st: State, pulls: Pulls, t: Node)
    ensures PullsBy(pulls, t) <= AnsweredPulls(w, st, pulls) || exists i: nat :: Told(w, st, pulls, t, i)
  {
    if pulls != [] {
      var n := |pulls| - 1;
      var front := pulls[..n];
      ToldOrAnswered(w, st, front, t);
      if i: nat :| Told(w, st, front, t, i) {
        AnswerSoFar(w, st, pulls, n, i);
        assert Told(w, st, pulls, t, i);
      } else if pulls[n].0 == t && Answer(w, st, pulls, n).None? {
        assert Told(w, st, pulls, t, n);
      }
    }
  }

  /** A target that pulls more often than there are entries queued for live sources is told `None`. */
  lemma PatientTargetTold(w: World, st: State, pulls: Pulls, t: Node)
    requires PullsBy(pulls, t) > Backlog(w.sources, st.candidates)
    ensures exists i: nat :: Told(w, st, pulls, t, i)
  {
    ToldOrAnswered(w, st, pulls, t);
    AnsweredAtMostBacklog(w, st, pulls);
  }

  /** So pulling often enough drains every queue, whatever the order of the pulls. */
  lemma PatienceDrains(w: World, st: State, pulls: Pulls, s: Node, key: BlockKey)
    requires Distinct(w.sources) && Distinct(w.targets) && w.targets != [] && s in w.sources
    requires forall t | t in w.targets :: PullsBy(pulls, t) > Backlog(w.sources, st.candidates)
    ensures TotalDelivered(w, st, pulls, s, key) ==
            if WorthCopying(w, s, key) then Queued(QueueOf(st.candidates, s), key) else 0
  {
    forall t | t in w.targets ensures exists i: nat :: Told(w, st, pulls, t, i) { PatientTargetTold(w, st, pulls, t); }
    DrainedExactly(w, st, pulls, s, key);
  }

  /** Every block of a source has one paired target that owns it. */
  lemma WinningTarget(w: World, s: Node, key: BlockKey) returns (t: Node)
    requires Distinct(w.sources) && Distinct(w.targets) && w.targets != [] && s in w.sources && Dispatchable(w, s, key)
    ensures t in w.targets && (s, t) in WorldPairs(w) && Due(w, t, s, key)
  {
    var peers := PeersIn(WorldPairs(w), s);
    var any := SourceHasTarget(w.sources, w.targets, w.pairScore, s);
    PeersInPairs(WorldPairs(w), s, any);
    t := Winner(w, peers, key.hash);
    PeersInPairs(WorldPairs(w), s, t);
    PairInRange(w.sources, w.targets, w.pairScore, (s, t));
    OneTargetOwnsBlock(w, peers, key.hash, t);
  }

  /** Every block handed out went to the one target its source and hash select. */
  lemma DeliveredToWinner(w: World, st: State, pulls: Pulls, i: nat, h: Hash)
    requires i < |pulls| && Answer(w, st, pulls, i).Some? && h in Answer(w, st, pulls, i).value.hashes
    ensures var b := Answer(w, st, pulls, i).value;
            var peers := PeersIn(WorldPairs(w), b.source);
            && WorthCopying(w, b.source, BlockKey(b.ns, h)) && pulls[i].0 in peers
            && forall p | p in peers :: p == pulls[i].0 || w.blockScore(pulls[i].0, h) > w.blockScore(p, h)
                 || (w.blockScore(pulls[i].0, h) == w.blockScore(p, h) && NameLess(p, pulls[i].0))
  {
    PulledByWinner(w, RunState(w, st, pulls[..i]), pulls[i].0, pulls[i].1, h);
    OneTargetOwnsBlock(w, PeersIn(WorldPairs(w), Answer(w, st, pulls, i).value.source), h, pulls[i].0);
  }

  lemma PulledByWinner(w: World, st: State, target: Node, maxBytes: U64, h: Hash)
    requires Pull(w, st, target, maxBytes).1.Some? && h in Pull(w, st, target, maxBytes).1.value.hashes
    ensures var b := Pull(w, st, target, maxBytes).1.value;
            var peers := PeersIn(WorldPairs(w), b.source);
            && Dispatchable(w, b.source, BlockKey(b.ns, h))
            && target in peers && OutranksAll(w, peers, h, target)
  {
    var b := Pull(w, st, target, maxBytes).1.value;
    AnsweredFromPair(w, st, target, maxBytes);
    PairInRange(w.sources, w.targets, w.pairScore, (b.source, target));
    PullMoves(w, st, target, maxBytes, b.source, BlockKey(b.ns, h));
    assert InBatch(Some(b), BlockKey(b.ns, h)) > 0;
    PeersInPairs(WorldPairs(w), b.source, target);
    OneTargetOwnsBlock(w, PeersIn(WorldPairs(w), b.source), h, target);
  }

  lemma AnsweredFromPair(w: World, st: State, target: Node, maxBytes: U64)
    ensures var batch := Pull(w, st, target, maxBytes).1;
            batch.Some? ==> (batch.value.source, target) in WorldPairs(w)
  {
    var sources, live := SourcesIn(WorldPairs(w), target), Live(w, st);
    if target in w.targets && sources != [] {
      var start := if target in live.cursor then live.cursor[target] else 0;
      TrySourcesMoves(w, target, maxBytes, sources, start, 0, live.candidates, "", BlockKey("", []));
      var answer := TrySources(w, WorldPairs(w), target, maxBytes, sources, start, 0, live.candidates).1;
      if answer.Some? { SourcesInPairs(WorldPairs(w), target, answer.value.0.source); }
    }
  }

  // ------------------------------------------------------------ the planner object

  lemma {:induction false} NonEmptyAppend(a: seq<Group>, b: seq<Group>)
    ensures NonEmpty(a + b) == NonEmpty(a) + NonEmpty(b)
  {
    if a == [] {
      assert a + b == b;
    } else {
      assert (a + b)[1..] == a[1..] + b;
      NonEmptyAppend(a[1..], b);
    }
  }

  lemma TakeGroupsStep(
    w: World, source: Node, peers: seq<Node>, target: Node, maxBytes: U64, queue: seq<Group>, i: nat)
    requires i < |queue|
    ensures var p := ScanQueue(w, source, peers, target, queue[i], maxBytes, queue[i].hashes);
            var first := if p.kept == [] then [] else [queue[i].(hashes := p.kept)];
            TakeGroups(w, source, peers, target, maxBytes, queue[i..]) ==
            if p.taken != [] then (first + NonEmpty(queue[i+1..]), Some(Batch(source, queue[i].ns, p.taken)))
            else var rest := TakeGroups(w, source, peers, target, maxBytes, queue[i+1..]); (first + rest.0, rest.1)
  {
    assert queue[i..][1..] == queue[i+1..];
  }

  class Planner {
    var candidates: map<Node, seq<Group>>
    var cursor: map<Node, nat>

    constructor ()
      ensures candidates == map[] && cursor == map[]
    {
      candidates, cursor := map[], map[];
    }

    static method Partition(w: World, g: Group) returns (keep: seq<Hash>, done: seq<Hash>)
      ensures keep == Select(g.hashes, NotBacked(w, g.ns)) && done == Select(g.hashes, IsBacked(w, g.ns))
    {
      keep, done := [], [];
      for j := 0 to |g.hashes|
        invariant keep == Select(g.hashes[..j], NotBacked(w, g.ns)) && done == Select(g.hashes[..j], IsBacked(w, g.ns))
      {
        assert g.hashes[..j+1][..j] == g.hashes[..j];
        if Backed(w, BlockKey(g.ns, g.hashes[j])) {
          done := done + [g.hashes[j]];
        } else {
          keep := keep + [g.hashes[j]];
        }
      }
      assert g.hashes[..|g.hashes|] == g.hashes;
    }

    /** Replace the snapshot of `source`; the blocks that already have a backup are handed back. */
    method Report(w: World, source: Node, groups: seq<Group>) returns (backed: seq<Group>)
      modifies this`candidates
      ensures backed == Portion(w, groups, true)
      ensures candidates == var queue := Portion(w, groups, false);
                            if queue == [] then old(candidates) - {source} else old(candidates)[source := queue]
      ensures Parts(w, groups, true, backed) && Parts(w, groups, false, QueueOf(candidates, source))
      ensures source in candidates ==> candidates[source] != []
    {
      var queued: seq<Group> := [];
      backed := [];
      for i := 0 to |groups|
        invariant candidates == old(candidates)
        invariant queued == Portion(w, groups[..i], false) && backed == Portion(w, groups[..i], true)
      {
        var g := groups[i];
        var keep, done := Partition(w, g);
        assert groups[..i+1][..i] == groups[..i];
        NonEmptyOne(g.(hashes := keep));
        NonEmptyOne(g.(hashes := done));
        if done != [] {
          backed := backed + [g.(hashes := done)];
        }
        if keep != [] {
          queued := queued + [g.(hashes := keep)];
        }
      }
      assert groups[..|groups|] == groups;
      PortionExactly(w, groups, true);
      PortionExactly(w, groups, false);
      candidates := if queued == [] then candidates - {source} else candidates[source := queued];
    }

    method ForgetSource(source: Node)
      modifies this`candidates
      ensures candidates == old(candidates) - {source}
    {
      candidates := candidates - {source};
    }

    /** Scan one queue; the entries not taken stay in order. */
    static method ScanGroup(w: World, source: Node, peers: seq<Node>, target: Node, g: Group, maxBytes: U64)
      returns (kept: seq<Hash>, taken: seq<Hash>)
      ensures var p := ScanQueue(w, source, peers, target, g, maxBytes, g.hashes); kept == p.kept && taken == p.taken
    {
      kept, taken := [], [];
      var full := false;
      for i := 0 to |g.hashes|
        invariant Progress(kept, taken, full) == ScanQueue(w, source, peers, target, g, maxBytes, g.hashes[..i])
      {
        assert g.hashes[..i+1][..i] == g.hashes[..i];
        var hash := g.hashes[i];
        if full || !OwnsBlock(w, peers, target, hash) {
          kept := kept + [hash];
        } else if !Held(w, source, BlockKey(g.ns, hash)) || Backed(w, BlockKey(g.ns, hash)) {
          // dropped: the source lost it, or a target has it
        } else {
          var bytes := SaturatingMul(g.blockBytes, |taken|);
          if taken != [] && SaturatingAdd(bytes, g.blockBytes) > maxBytes {
            full := true;
            kept := kept + [hash];
          } else {
            taken := taken + [hash];
          }
        }
      }
      assert g.hashes[..|g.hashes|] == g.hashes;
    }

    static method TakeFromGroups(
      w: World, source: Node, peers: seq<Node>, target: Node, maxBytes: U64, queue: seq<Group>)
      returns (groups: seq<Group>, batch: Option<Batch>)
      ensures (groups, batch) == TakeGroups(w, source, peers, target, maxBytes, queue)
    {
      var done: seq<Group> := [];
      ghost var all := TakeGroups(w, source, peers, target, maxBytes, queue);
      assert queue[0..] == queue;
      for i := 0 to |queue|
        invariant all.0 == done + TakeGroups(w, source, peers, target, maxBytes, queue[i..]).0
        invariant all.1 == TakeGroups(w, source, peers, target, maxBytes, queue[i..]).1
      {
        var kept, taken := ScanGroup(w, source, peers, target, queue[i], maxBytes);
        var first := if kept == [] then [] else [queue[i].(hashes := kept)];
        TakeGroupsStep(w, source, peers, target, maxBytes, queue, i);
        if taken != [] {
          return done + (first + NonEmpty(queue[i+1..])), Some(Batch(source, queue[i].ns, taken));
        }
        Associative(done, first, TakeGroups(w, source, peers, target, maxBytes, queue[i+1..]).0);
        done := done + first;
      }
      assert queue[|queue|..] == [] && done + [] == done;
      return done, None;
    }

    method TakeBatch(w: World, pairs: seq<Pair>, source: Node, target: Node, maxBytes: U64)
      returns (batch: Option<Batch>)
      modifies this`candidates
      ensures (candidates, batch) == TakeSource(w, pairs, target, maxBytes, old(candidates), source)
    {
      if source !in candidates {
        return None;
      }
      var groups;
      groups, batch := TakeFromGroups(w, source, PeersIn(pairs, source), target, maxBytes, candidates[source]);
      candidates := if groups == [] then candidates - {source} else candidates[source := groups];
    }

    /** Next batch for `target`: at most `maxBytes`, at least one block. */
    method Plan(w: World, target: Node, maxBytes: U64) returns (batch: Option<Batch>)
      modifies this
      ensures State(candidates, cursor) == Pull(w, old(State(candidates, cursor)), target, maxBytes).0
      ensures batch == Pull(w, old(State(candidates, cursor)), target, maxBytes).1
    {
      var live := Live(w, State(candidates, cursor));
      candidates, cursor := live.candidates, live.cursor;
      if target !in w.targets {
        return None;
      }
      batch := ServeTarget(w, target, maxBytes);
    }

    method ServeTarget(w: World, target: Node, maxBytes: U64) returns (batch: Option<Batch>)
      modifies this
      ensures State(candidates, cursor) == Serve(w, old(State(candidates, cursor)), target, maxBytes).0
      ensures batch == Serve(w, old(State(candidates, cursor)), target, maxBytes).1
    {
      var pairs := ComputePairing(w.sources, w.targets, w.pairScore);
      assert pairs == WorldPairs(w);
      var sources := SourcesIn(pairs, target);
      if sources == [] {
        return None;
      }
      batch := ServeSources(w, pairs, target, maxBytes, sources);
    }

    method ServeSources(w: World, pairs: seq<Pair>, target: Node, maxBytes: U64, sources: seq<Node>)
      returns (batch: Option<Batch>)
      requires sources != []
      modifies this
      ensures (State(candidates, cursor), batch) ==
                Answered(w, pairs, old(State(candidates, cursor)), target, maxBytes, sources)
    {
      var start := if target in cursor then cursor[target] else 0;
      var answer := TryAll(w, pairs, target, maxBytes, sources, start);
      if answer.None? {
        return None;
      }
      cursor := cursor[target := answer.value.1 + 1];
      return Some(answer.value.0);
    }

    method TryAll(w: World, pairs: seq<Pair>, target: Node, maxBytes: U64, sources: seq<Node>, start: nat)
      returns (answer: Option<(Batch, nat)>)
      requires sources != []
      modifies this`candidates
      ensures candidates == TrySources(w, pairs, target, maxBytes, sources, start, 0, old(candidates)).0
      ensures answer == TrySources(w, pairs, target, maxBytes, sources, start, 0, old(candidates)).1
    {
      for offset := 0 to |sources|
        invariant TrySources(w, pairs, target, maxBytes, sources, start, 0, old(candidates))
                  == TrySources(w, pairs, target, maxBytes, sources, start, offset, candidates)
      {
        var batch := TakeBatch(w, pairs, Turn(sources, start, offset), target, maxBytes);
        if batch.Some? {
          return Some((batch.value, (start + offset) % |sources|));
        }
      }
      return None;
    }
  }

  lemma {:induction false} SelectCount(xs: seq<Hash>, p: Hash -> bool, h: Hash)
    ensures multiset(Select(xs, p))[h] == if p(h) then multiset(xs)[h] else 0
  {
    if xs != [] {
      SelectCount(xs[..|xs|-1], p, h);
      assert xs == xs[..|xs|-1] + [xs[|xs|-1]];
    }
  }

  lemma PortionOfGroup(w: World, g: Group, backed: bool, key: BlockKey)
    ensures var p := if backed then IsBacked(w, g.ns) else NotBacked(w, g.ns);
            Queued(NonEmpty([g.(hashes := Select(g.hashes, p))]), key) == if Backed(w, key) == backed
                then Queued([g], key) else 0
  {
    var p := if backed then IsBacked(w, g.ns) else NotBacked(w, g.ns);
    var part := g.(hashes := Select(g.hashes, p));
    QueuedOne(g, key);
    SelectCount(g.hashes, p, key.hash);
    assert key == BlockKey(key.ns, key.hash);
    QueuedNonEmpty([part], key);
    QueuedOne(part, key);
  }

  /** A report queues what has no backup and hands back the rest, each block as often as it was reported. */
  lemma {:induction false} ReportConserves(w: World, groups: seq<Group>, backed: bool, key: BlockKey)
    ensures Queued(Portion(w, groups, backed), key) == if Backed(w, key) == backed then Queued(groups, key) else 0
  {
    if groups != [] {
      var front, g := groups[..|groups|-1], groups[|groups|-1];
      var p := if backed then IsBacked(w, g.ns) else NotBacked(w, g.ns);
      var part := g.(hashes := Select(g.hashes, p));
      ReportConserves(w, front, backed, key);
      FrontLast(groups);
      QueuedAppend(front, [g], key);
      QueuedAppend(Portion(w, front, backed), NonEmpty([part]), key);
      PortionOfGroup(w, g, backed, key);
    }
  }
}
