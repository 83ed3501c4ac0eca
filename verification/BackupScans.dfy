/** A scan of one queue and a pull, told by what stays behind. */
module BackupScans {
  import opened Common
  import opened Directory
  import opened Pairing
  import opened BackupReport
  import opened BackupPlanner

  // ------------------------------------------------------------ one scan

  ghost function NotMine(w: World, peers: seq<Node>, target: Node): Hash -> bool {
    (h: Hash) => !OwnsBlock(w, peers, target, h)
  }

  /**
   The scan looked at the first `n` entries: it took the wanted ones and left those of other targets; the rest it left
   alone, because the next one, wanted as well, did not fit.
   */
  ghost predicate ScannedTo(w: World, source: Node, peers: seq<Node>, target: Node, ns: string, hashes: seq<Hash>,
                            n: nat, p: Progress) {
    && n <= |hashes|
    && p.taken == Select(hashes[..n], Wanted(w, source, peers, target, ns))
    && p.kept == Select(hashes[..n], NotMine(w, peers, target)) + hashes[n..]
    && (p.full <==> n < |hashes|)
    && (n < |hashes| ==> Wanted(w, source, peers, target, ns)(hashes[n]))
  }

  lemma SelectLast(xs: seq<Hash>, x: Hash, p: Hash -> bool)
    ensures Select(xs + [x], p) == Select(xs, p) + if p(x) then [x] else []
  {
    assert (xs + [x])[..|xs|] == xs;
  }

  lemma ScanGoesOn(w: World, source: Node, peers: seq<Node>, target: Node, g: Group, maxBytes: U64,
                   front: seq<Hash>, h: Hash, p: Progress) returns (n: nat)
    requires ScannedTo(w, source, peers, target, g.ns, front, |front|, p)
    ensures ScannedTo(w, source, peers, target, g.ns, front + [h], n,
                      ScanNext(w, source, peers, target, g, maxBytes, p, h))
  {
    var all := front + [h];
    var q := ScanNext(w, source, peers, target, g, maxBytes, p, h);
    assert front[..|front|] == front && all[..|front|] == front && all[..|all|] == all;
    assert front[|front|..] == [] && all[|all|..] == [] && all[|front|..] == [h];
    SelectLast(front, h, Wanted(w, source, peers, target, g.ns));
    SelectLast(front, h, NotMine(w, peers, target));
    n := if q.full then |front| else |all|;
  }

  lemma ScanIsOver(w: World, source: Node, peers: seq<Node>, target: Node, g: Group, maxBytes: U64,
                   front: seq<Hash>, h: Hash, n: nat, p: Progress)
    requires n < |front| && ScannedTo(w, source, peers, target, g.ns, front, n, p)
    ensures ScannedTo(w, source, peers, target, g.ns, front + [h], n,
                      ScanNext(w, source, peers, target, g, maxBytes, p, h))
  {
    assert (front + [h])[..n] == front[..n] && (front + [h])[n..] == front[n..] + [h];
  }

  /** What a scan leaves behind: the blocks of other targets, and all from the first due block that did not fit. */
  lemma {:induction false} ScanExactly(w: World, source: Node, peers: seq<Node>, target: Node, g: Group, maxBytes: U64,
                                       hashes: seq<Hash>) returns (n: nat)
    ensures ScannedTo(w, source, peers, target, g.ns, hashes, n,
                      ScanQueue(w, source, peers, target, g, maxBytes, hashes))
  {
    n := 0;
    if hashes != [] {
      var front, h := hashes[..|hashes|-1], hashes[|hashes|-1];
      n := ScanExactly(w, source, peers, target, g, maxBytes, front);
      assert hashes == front + [h];
      var p := ScanQueue(w, source, peers, target, g, maxBytes, front);
      if n < |front| {
        ScanIsOver(w, source, peers, target, g, maxBytes, front, h, n, p);
      } else {
        n := ScanGoesOn(w, source, peers, target, g, maxBytes, front, h, p);
      }
    }
  }

  // ------------------------------------------------------------ no empty queue is kept

  ghost predicate NoEmptyGroup(groups: seq<Group>) { forall i | 0 <= i < |groups| :: groups[i].hashes != [] }

  /** Every queue has a group, and every group a block. */
  ghost predicate Tidy(candidates: map<Node, seq<Group>>) {
    forall s | s in candidates :: candidates[s] != [] && NoEmptyGroup(candidates[s])
  }

  lemma {:induction false} NonEmptyHasNone(groups: seq<Group>)
    ensures NoEmptyGroup(NonEmpty(groups))
  {
    if groups != [] { NonEmptyHasNone(groups[1..]); }
  }

  lemma {:induction false} TakeLeavesNone(w: World, source: Node, peers: seq<Node>, target: Node, maxBytes: U64,
                                          groups: seq<Group>)
    ensures NoEmptyGroup(TakeGroups(w, source, peers, target, maxBytes, groups).0)
  {
    if groups != [] {
      NonEmptyHasNone(groups[1..]);
      TakeLeavesNone(w, source, peers, target, maxBytes, groups[1..]);
    }
  }

  lemma TakeTidy(w: World, pairs: seq<Pair>, target: Node, maxBytes: U64, candidates: map<Node, seq<Group>>,
                 source: Node)
    requires Tidy(candidates)
    ensures Tidy(TakeSource(w, pairs, target, maxBytes, candidates, source).0)
  {
    if source in candidates {
      TakeLeavesNone(w, source, PeersIn(pairs, source), target, maxBytes, candidates[source]);
    }
  }

  lemma {:induction false} TryTidy(w: World, pairs: seq<Pair>, target: Node, maxBytes: U64, sources: seq<Node>,
                                   start: nat, offset: nat, candidates: map<Node, seq<Group>>)
    requires sources != [] && offset <= |sources| && Tidy(candidates)
    ensures Tidy(TrySources(w, pairs, target, maxBytes, sources, start, offset, candidates).0)
    decreases |sources| - offset
  {
    if offset < |sources| {
      TakeTidy(w, pairs, target, maxBytes, candidates, Turn(sources, start, offset));
      var (after, batch) := TakeSource(w, pairs, target, maxBytes, candidates, Turn(sources, start, offset));
      if batch.None? { TryTidy(w, pairs, target, maxBytes, sources, start, offset + 1, after); }
    }
  }

  lemma AnsweredTidy(w: World, pairs: seq<Pair>, st: State, target: Node, maxBytes: U64, sources: seq<Node>)
    requires sources != [] && Tidy(st.candidates)
    ensures Tidy(Answered(w, pairs, st, target, maxBytes, sources).0.candidates)
  {
    var start := if target in st.cursor then st.cursor[target] else 0;
    TryTidy(w, pairs, target, maxBytes, sources, start, 0, st.candidates);
  }

  /** A pull leaves no empty queue and no empty group behind. */
  lemma PullTidy(w: World, st: State, target: Node, maxBytes: U64)
    requires Tidy(st.candidates)
    ensures Tidy(Pull(w, st, target, maxBytes).0.candidates)
  {
    var sources := SourcesIn(WorldPairs(w), target);
    if target in w.targets && sources != [] {
      AnsweredTidy(w, WorldPairs(w), Live(w, st), target, maxBytes, sources);
    }
  }
}
