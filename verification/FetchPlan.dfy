/** The prefix fetch plan: which node to fetch each stretch of a prefix from. */
module FetchPlan {
  import opened Common
  import opened Directory
  import opened BlockHashStoreModule

  datatype FetchSegment = FetchSegment(node: Node, blockCount: nat)

  datatype PlanError = SegmentTooLong

  predicate Owns(e: PrefixEntry, n: Node) { n in e.nodes }

  /** End of the stretch from `offset` that `n` owns without a gap. */
  function RunEnd(entries: seq<PrefixEntry>, offset: nat, n: Node): (end: nat)
    requires offset <= |entries|
    ensures offset <= end <= |entries|
    ensures forall i | offset <= i < end :: Owns(entries[i], n)
    ensures end < |entries| ==> !Owns(entries[end], n)
    decreases |entries| - offset
  {
    if offset < |entries| && Owns(entries[offset], n) then RunEnd(entries, offset + 1, n) else offset
  }

  predicate Candidate(entries: seq<PrefixEntry>, exclude: Node, offset: nat, n: Node)
    requires offset < |entries|
  {
    n != exclude && Owns(entries[offset], n)
  }

  /** `(n, end)` ranks before or with the candidate `m`: it reaches further, or as far with a smaller name. */
  predicate Beats(entries: seq<PrefixEntry>, offset: nat, n: Node, m: Node)
    requires offset < |entries|
  {
    var (en, em) := (RunEnd(entries, offset, n), RunEnd(entries, offset, m));
    en > em || (en == em && (n == m || NameLess(n, m)))
  }

  lemma BeatsTransitive(entries: seq<PrefixEntry>, offset: nat, a: Node, b: Node, c: Node)
    requires offset < |entries| && Beats(entries, offset, a, b) && Beats(entries, offset, b, c)
    ensures Beats(entries, offset, a, c)
  {
    if NameLess(a, b) && NameLess(b, c) { NameTransitive(a, b, c); }
  }

  ghost predicate IsBest(entries: seq<PrefixEntry>, exclude: Node, offset: nat, n: Node)
    requires offset < |entries|
  {
    && Candidate(entries, exclude, offset, n)
    && forall m | Candidate(entries, exclude, offset, m) :: Beats(entries, offset, n, m)
  }

  lemma BestUnique(entries: seq<PrefixEntry>, exclude: Node, offset: nat, n: Node, m: Node)
    requires offset < |entries|
    requires IsBest(entries, exclude, offset, n) && IsBest(entries, exclude, offset, m)
    ensures n == m
  {
    assert Beats(entries, offset, n, m) && Beats(entries, offset, m, n);
    if n != m { NameAsymmetric(n, m); }
  }

  ghost predicate Servable(entries: seq<PrefixEntry>, exclude: Node, offset: nat)
    requires offset < |entries|
  {
    exists n :: Candidate(entries, exclude, offset, n)
  }

  lemma BestExists(entries: seq<PrefixEntry>, exclude: Node, offset: nat)
    requires offset < |entries| && Servable(entries, exclude, offset)
    ensures exists n :: IsBest(entries, exclude, offset, n)
  {
    var best :| Candidate(entries, exclude, offset, best);
    var nodes := entries[offset].nodes;
    for i := 0 to |nodes|
      invariant Candidate(entries, exclude, offset, best)
      invariant forall j | 0 <= j < i && nodes[j] != exclude :: Beats(entries, offset, best, nodes[j])
    {
      NameTotal(best, nodes[i]);
      if nodes[i] != exclude && !Beats(entries, offset, best, nodes[i]) {
        forall j | 0 <= j < i && nodes[j] != exclude ensures Beats(entries, offset, nodes[i], nodes[j]) {
          BeatsTransitive(entries, offset, nodes[i], best, nodes[j]);
        }
        best := nodes[i];
      }
    }
    assert IsBest(entries, exclude, offset, best);
  }

  ghost function Best(entries: seq<PrefixEntry>, exclude: Node, offset: nat): (n: Node)
    requires offset < |entries| && Servable(entries, exclude, offset)
    ensures IsBest(entries, exclude, offset, n)
  {
    BestExists(entries, exclude, offset);
    var n :| IsBest(entries, exclude, offset, n);
    n
  }

  /** The best choice again and again, until an entry has no candidate. */
  ghost function Greedy(entries: seq<PrefixEntry>, exclude: Node, offset: nat): seq<FetchSegment>
    requires offset <= |entries|
    decreases |entries| - offset
  {
    if offset == |entries| || !Servable(entries, exclude, offset) then []
    else
      var n := Best(entries, exclude, offset);
      var end := RunEnd(entries, offset, n);
      [FetchSegment(n, end - offset)] + Greedy(entries, exclude, end)
  }

  /** The call returns the greedy plan, unless one of its segments is too long for a 32-bit count. */
  method PlanFetchSegments(entries: seq<PrefixEntry>, exclude: Node)
    returns (r: Result<seq<FetchSegment>, PlanError>)
    ensures r.Ok? ==> r.value == Greedy(entries, exclude, 0)
    ensures r.Err? <==> exists s | s in Greedy(entries, exclude, 0) :: s.blockCount > U32_MAX
  {
    var segments: seq<FetchSegment> := [];
    var offset := 0;
    while offset < |entries|
      invariant offset <= |entries|
      invariant forall s | s in segments :: s.blockCount <= U32_MAX
      invariant Greedy(entries, exclude, 0) == segments + Greedy(entries, exclude, offset)
    {
      var best := BestCandidate(entries, exclude, offset);
      if best.None? {
        break;
      }
      var end := RunEnd(entries, offset, best.value);
      GreedyNext(entries, exclude, offset, best.value, segments);
      if end - offset > U32_MAX {
        assert FetchSegment(best.value, end - offset) in Greedy(entries, exclude, 0);
        return Err(SegmentTooLong);
      }
      segments := segments + [FetchSegment(best.value, end - offset)];
      offset := end;
    }
    return Ok(segments);
  }

  lemma GreedyStep(entries: seq<PrefixEntry>, exclude: Node, offset: nat, n: Node, end: nat)
    requires offset < |entries| && Servable(entries, exclude, offset)
    requires n == Best(entries, exclude, offset) && end == RunEnd(entries, offset, n)
    ensures offset < end
    ensures Greedy(entries, exclude, offset) == [FetchSegment(n, end - offset)] + Greedy(entries, exclude, end)
  {
  }

  /** The next segment of the plan, after the ones there are. */
  lemma GreedyNext(entries: seq<PrefixEntry>, exclude: Node, offset: nat, n: Node, segments: seq<FetchSegment>)
    requires offset < |entries| && IsBest(entries, exclude, offset, n)
    ensures RunEnd(entries, offset, n) > offset
    ensures segments + Greedy(entries, exclude, offset) ==
            segments + [FetchSegment(n, RunEnd(entries, offset, n) - offset)]
            + Greedy(entries, exclude, RunEnd(entries, offset, n))
  {
    assert Candidate(entries, exclude, offset, n);
    BestUnique(entries, exclude, offset, n, Best(entries, exclude, offset));
    GreedyStep(entries, exclude, offset, n, RunEnd(entries, offset, n));
  }

  method BestCandidate(entries: seq<PrefixEntry>, exclude: Node, offset: nat) returns (best: Option<Node>)
    requires offset < |entries|
    ensures best.None? <==> !Servable(entries, exclude, offset)
    ensures best.Some? ==> IsBest(entries, exclude, offset, best.value)
    ensures best.None? <==> forall m | m in entries[offset].nodes :: m == exclude
    ensures best.Some? ==> best.value in entries[offset].nodes && best.value != exclude
    ensures best.Some? ==> forall m | m in entries[offset].nodes && m != exclude ::
              RunEnd(entries, offset, m) <= RunEnd(entries, offset, best.value)
    ensures best.Some? ==> forall m | m in entries[offset].nodes && m != exclude && m != best.value
                && RunEnd(entries, offset, m) == RunEnd(entries, offset, best.value) ::
              NameLess(best.value, m)
  {
    best := None;
    var nodes := entries[offset].nodes;
    for i := 0 to |nodes|
      invariant best.None? ==> forall j | 0 <= j < i :: nodes[j] == exclude
      invariant best.Some? ==> Candidate(entries, exclude, offset, best.value)
      invariant best.Some? ==>
                  forall j | 0 <= j < i && nodes[j] != exclude :: Beats(entries, offset, best.value, nodes[j])
    {
      var candidate := nodes[i];
      if candidate == exclude {
        continue;
      }
      var better := best.None?;
      if best.Some? {
        var bestEnd, end := RunEnd(entries, offset, best.value), RunEnd(entries, offset, candidate);
        better := end > bestEnd || (end == bestEnd && NameLess(candidate, best.value));
        NameTotal(candidate, best.value);
      }
      if better {
        forall j | best.Some? && 0 <= j < i && nodes[j] != exclude ensures Beats(entries, offset, candidate, nodes[j]) {
          BeatsTransitive(entries, offset, candidate, best.value, nodes[j]);
        }
        best := Some(candidate);
      }
    }
    if best.Some? { BestOfAll(entries, exclude, offset, best.value); }
  }

  /** The choice reaches farthest, and of those that reach as far it has the least name. */
  lemma BestOfAll(entries: seq<PrefixEntry>, exclude: Node, offset: nat, n: Node)
    requires offset < |entries| && Candidate(entries, exclude, offset, n)
    requires forall j | 0 <= j < |entries[offset].nodes| && entries[offset].nodes[j] != exclude ::
               Beats(entries, offset, n, entries[offset].nodes[j])
    ensures IsBest(entries, exclude, offset, n)
    ensures forall m | m in entries[offset].nodes && m != exclude ::
              RunEnd(entries, offset, m) <= RunEnd(entries, offset, n)
    ensures forall m | m in entries[offset].nodes && m != exclude && m != n
                && RunEnd(entries, offset, m) == RunEnd(entries, offset, n) ::
              NameLess(n, m)
  {
    forall m | m in entries[offset].nodes && m != exclude ensures Beats(entries, offset, n, m) {
      var j :| 0 <= j < |entries[offset].nodes| && entries[offset].nodes[j] == m;
    }
  }

  // ------------------------------------------------------------ what the plan achieves

  /** A plan that fetches the entries from `offset` to `end`, each from a node that owns it. */
  ghost predicate Fetches(entries: seq<PrefixEntry>, exclude: Node, offset: nat, end: nat, plan: seq<FetchSegment>)
    decreases |plan|
  {
    && offset <= end <= |entries|
    && if plan == [] then offset == end
       else
         var next := offset + plan[0].blockCount;
         && offset < next <= end && plan[0].node != exclude
         && (forall i | offset <= i < next :: Owns(entries[i], plan[0].node))
         && Fetches(entries, exclude, next, end, plan[1..])
  }

  /** How far a prefix can be served at all. */
  ghost function ServableEnd(entries: seq<PrefixEntry>, exclude: Node, offset: nat): (end: nat)
    requires offset <= |entries|
    ensures offset <= end <= |entries|
    decreases |entries| - offset
  {
    if offset < |entries| && Servable(entries, exclude, offset) then ServableEnd(entries, exclude, offset + 1)
    else offset
  }

  /** Every entry up to there can be served, and the next one cannot. */
  lemma {:induction false} ServableUpTo(entries: seq<PrefixEntry>, exclude: Node, offset: nat)
    requires offset <= |entries|
    ensures var end := ServableEnd(entries, exclude, offset);
            && (forall i | offset <= i < end :: Servable(entries, exclude, i))
            && (end < |entries| ==> !Servable(entries, exclude, end))
    decreases |entries| - offset
  {
    if offset < |entries| && Servable(entries, exclude, offset) { ServableUpTo(entries, exclude, offset + 1); }
  }

  lemma {:induction false} ServableEndFrom(entries: seq<PrefixEntry>, exclude: Node, offset: nat, mid: nat)
    requires offset <= mid <= |entries|
    requires forall i | offset <= i < mid :: Servable(entries, exclude, i)
    ensures ServableEnd(entries, exclude, offset) == ServableEnd(entries, exclude, mid)
    decreases mid - offset
  {
    if offset < mid { ServableEndFrom(entries, exclude, offset + 1, mid); }
  }

  lemma RunServable(entries: seq<PrefixEntry>, exclude: Node, offset: nat, n: Node)
    requires offset < |entries| && Candidate(entries, exclude, offset, n)
    ensures forall i | offset <= i < RunEnd(entries, offset, n) :: Servable(entries, exclude, i)
  {
    forall i | offset <= i < RunEnd(entries, offset, n)
      ensures Servable(entries, exclude, i)
    {
      assert Candidate(entries, exclude, i, n);
    }
  }

  lemma FetchesFirst(entries: seq<PrefixEntry>, exclude: Node, offset: nat, end: nat, first: FetchSegment,
                     rest: seq<FetchSegment>)
    requires first.blockCount > 0 && first.node != exclude
    requires Fetches(entries, exclude, offset + first.blockCount, end, rest)
    requires forall i | offset <= i < offset + first.blockCount :: Owns(entries[i], first.node)
    ensures Fetches(entries, exclude, offset, end, [first] + rest)
  {
    assert ([first] + rest)[1..] == rest;
  }

  lemma GreedyFirst(entries: seq<PrefixEntry>, exclude: Node, offset: nat) returns (first: FetchSegment)
    requires offset < |entries| && Servable(entries, exclude, offset)
    ensures first.blockCount > 0 && first.node != exclude && offset + first.blockCount <= |entries|
    ensures forall i | offset <= i < offset + first.blockCount :: Owns(entries[i], first.node)
    ensures Greedy(entries, exclude, offset) == [first] + Greedy(entries, exclude, offset + first.blockCount)
    ensures ServableEnd(entries, exclude, offset) == ServableEnd(entries, exclude, offset + first.blockCount)
  {
    var n := GreedyChoice(entries, exclude, offset);
    var end := RunEnd(entries, offset, n);
    first := FetchSegment(n, end - offset);
    RunServable(entries, exclude, offset, n);
    ServableEndFrom(entries, exclude, offset, end);
  }

  lemma GreedyChoice(entries: seq<PrefixEntry>, exclude: Node, offset: nat) returns (n: Node)
    requires offset < |entries| && Servable(entries, exclude, offset)
    ensures Candidate(entries, exclude, offset, n) && RunEnd(entries, offset, n) > offset
    ensures Greedy(entries, exclude, offset) ==
            [FetchSegment(n, RunEnd(entries, offset, n) - offset)]
            + Greedy(entries, exclude, RunEnd(entries, offset, n))
  {
    n := Best(entries, exclude, offset);
    GreedyStep(entries, exclude, offset, n, RunEnd(entries, offset, n));
  }

  /** The plan covers exactly the longest servable prefix, every segment from a node that owns all of it. */
  lemma GreedyFetches(entries: seq<PrefixEntry>, exclude: Node, offset: nat)
    requires offset <= |entries|
    ensures Fetches(entries, exclude, offset, ServableEnd(entries, exclude, offset), Greedy(entries, exclude, offset))
  {
    GreedyReaches(entries, exclude, offset, ServableEnd(entries, exclude, offset));
  }

  lemma {:induction false} GreedyReaches(entries: seq<PrefixEntry>, exclude: Node, offset: nat, goal: nat)
    requires offset <= |entries| && goal == ServableEnd(entries, exclude, offset)
    ensures Fetches(entries, exclude, offset, goal, Greedy(entries, exclude, offset))
    decreases |entries| - offset
  {
    if offset < |entries| && Servable(entries, exclude, offset) {
      var first := GreedyFirst(entries, exclude, offset);
      GreedyReaches(entries, exclude, offset + first.blockCount, goal);
      FetchesFirst(entries, exclude, offset, goal, first, Greedy(entries, exclude, offset + first.blockCount));
    }
  }

  lemma RunReaches(entries: seq<PrefixEntry>, offset: nat, n: Node, next: nat)
    requires offset <= next <= |entries| && forall i | offset <= i < next :: Owns(entries[i], n)
    ensures next <= RunEnd(entries, offset, n)
  {
    var end := RunEnd(entries, offset, n);
    assert end < |entries| ==> !Owns(entries[end], n);
  }

  /** Any plan that starts no later and reaches as far uses at least as many segments. */
  lemma {:induction false} GreedyMinimal(
    entries: seq<PrefixEntry>, exclude: Node, start: nat, offset: nat, plan: seq<FetchSegment>)
    requires start <= offset <= |entries|
    requires Fetches(entries, exclude, start, ServableEnd(entries, exclude, offset), plan)
    ensures |Greedy(entries, exclude, offset)| <= |plan|
    decreases |plan|
  {
    if offset < |entries| && Servable(entries, exclude, offset) {
      var goal := ServableEnd(entries, exclude, offset);
      var next := start + plan[0].blockCount;
      if next <= offset {
        GreedyMinimal(entries, exclude, next, offset, plan[1..]);
      } else {
        var m, n := plan[0].node, Best(entries, exclude, offset);
        assert Candidate(entries, exclude, offset, m);
        RunReaches(entries, offset, m, next);
        var end := RunEnd(entries, offset, n);
        RunServable(entries, exclude, offset, n);
        ServableEndFrom(entries, exclude, offset, end);
        GreedyMinimal(entries, exclude, next, end, plan[1..]);
      }
    }
  }

  /** The owners of every entry are the same, listed in any order. */
  ghost predicate SameOwnerSets(a: seq<PrefixEntry>, b: seq<PrefixEntry>) {
    |a| == |b| && forall i, n | 0 <= i < |a| :: Owns(a[i], n) <==> Owns(b[i], n)
  }

  lemma {:induction false} RunEndSame(a: seq<PrefixEntry>, b: seq<PrefixEntry>, offset: nat, n: Node)
    requires SameOwnerSets(a, b) && offset <= |a|
    ensures RunEnd(a, offset, n) == RunEnd(b, offset, n)
    decreases |a| - offset
  {
    if offset < |a| { RunEndSame(a, b, offset + 1, n); }
  }

  lemma BestSame(a: seq<PrefixEntry>, b: seq<PrefixEntry>, exclude: Node, offset: nat, n: Node, m: Node)
    requires SameOwnerSets(a, b) && offset < |a|
    requires IsBest(a, exclude, offset, n) && IsBest(b, exclude, offset, m)
    ensures n == m
  {
    RunEndSame(a, b, offset, n);
    RunEndSame(a, b, offset, m);
    assert Candidate(a, exclude, offset, m) && Candidate(b, exclude, offset, n);
    assert Beats(a, offset, n, m) && Beats(b, offset, m, n);
    if n != m { NameAsymmetric(n, m); }
  }

  lemma FirstSame(a: seq<PrefixEntry>, b: seq<PrefixEntry>, exclude: Node, offset: nat)
    requires SameOwnerSets(a, b) && offset < |a|
    ensures Servable(a, exclude, offset) <==> Servable(b, exclude, offset)
    ensures Servable(a, exclude, offset) ==>
              && Best(a, exclude, offset) == Best(b, exclude, offset)
              && RunEnd(a, offset, Best(a, exclude, offset)) == RunEnd(b, offset, Best(a, exclude, offset))
  {
    assert forall n :: Candidate(a, exclude, offset, n) <==> Candidate(b, exclude, offset, n);
    if Servable(a, exclude, offset) {
      BestSame(a, b, exclude, offset, Best(a, exclude, offset), Best(b, exclude, offset));
      RunEndSame(a, b, offset, Best(a, exclude, offset));
    }
  }

  /** The plan does not depend on the order in which an entry lists its owners. */
  lemma {:induction false} GreedyIgnoresOwnerOrder(a: seq<PrefixEntry>, b: seq<PrefixEntry>, exclude: Node, offset: nat)
    requires SameOwnerSets(a, b) && offset <= |a|
    ensures Greedy(a, exclude, offset) == Greedy(b, exclude, offset)
    decreases |a| - offset
  {
    if offset < |a| {
      FirstSame(a, b, exclude, offset);
      if Servable(a, exclude, offset) {
        var n := Best(a, exclude, offset);
        var end := RunEnd(a, offset, n);
        GreedyStep(a, exclude, offset, n, end);
        GreedyStep(b, exclude, offset, n, end);
        GreedyIgnoresOwnerOrder(a, b, exclude, end);
      }
    }
  }
}
