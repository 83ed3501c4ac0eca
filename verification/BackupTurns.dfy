/** Whose turn it is: pulls go round the sources of a target, behind the one that answered last. */
module BackupTurns {
  import opened Common
  import opened Directory
  import opened Pairing
  import opened Seqs
  import opened BackupReport
  import opened BackupPlanner

  // ------------------------------------------------------------ the sources of a target

  lemma {:induction false} CountTwice<T(!new)>(xs: seq<T>, p: T -> bool, i: nat, j: nat)
    requires i < j < |xs| && p(xs[i]) && p(xs[j])
    ensures CountIf(xs, p) >= 2
  {
    if i == 0 {
      CountPositive(xs[1..], p);
      assert xs[1..][j-1] == xs[j];
    } else {
      CountTwice(xs[1..], p, i - 1, j - 1);
    }
  }

  /** No pair is listed twice. */
  lemma PairsDiffer(sources: seq<Node>, targets: seq<Node>, score: (Node, Node) -> nat)
    requires Distinct(sources) && Distinct(targets)
    ensures NoRepeats(Pairs(sources, targets, score))
  {
    var pairs := Pairs(sources, targets, score);
    forall i, j | 0 <= i < j < |pairs| ensures pairs[i] != pairs[j] {
      if pairs[i] == pairs[j] { NotTwice(sources, targets, score, i, j); }
    }
  }

  lemma NotTwice(sources: seq<Node>, targets: seq<Node>, score: (Node, Node) -> nat, i: nat, j: nat)
    requires Distinct(sources) && Distinct(targets) && i < j < |Pairs(sources, targets, score)|
    ensures Pairs(sources, targets, score)[i] != Pairs(sources, targets, score)[j]
  {
    var pairs := Pairs(sources, targets, score);
    var p := pairs[i];
    PairInRange(sources, targets, score, p);
    var items := ItemsOf(sources, targets);
    var item := if |sources| <= |targets| then p.1 else p.0;
    var x :| 0 <= x < |items| && items[x] == item;
    ItemPairedOnce(sources, targets, score, x);
    if pairs[j] == p { CountTwice(pairs, ItemPairs(sources, targets, item), i, j); }
  }

  lemma {:induction false} SourcesAscend(pairs: seq<Pair>, target: Node)
    requires InNameOrder(pairs) && NoRepeats(pairs)
    ensures forall i, j | 0 <= i < j < |SourcesIn(pairs, target)| ::
              NameLess(SourcesIn(pairs, target)[i], SourcesIn(pairs, target)[j])
  {
    if pairs != [] {
      var rest := pairs[1..];
      assert forall i | 0 <= i < |rest| :: rest[i] == pairs[i+1];
      SourcesAscend(rest, target);
      if pairs[0].1 == target {
        var later := SourcesIn(rest, target);
        forall j | 0 <= j < |later| ensures NameLess(pairs[0].0, later[j]) {
          SourcesInPairs(rest, target, later[j]);
          var k :| 0 <= k < |rest| && rest[k] == (later[j], target);
          assert pairs[k+1] != pairs[0];
        }
      }
    }
  }

  /** A target goes round its sources in the order of their names. */
  lemma SourcesInNameOrder(w: World, target: Node)
    requires Distinct(w.sources) && Distinct(w.targets)
    ensures forall i, j | 0 <= i < j < |SourcesIn(WorldPairs(w), target)| ::
              NameLess(SourcesIn(WorldPairs(w), target)[i], SourcesIn(WorldPairs(w), target)[j])
  {
    PairsSorted(w.sources, w.targets, w.pairScore);
    PairsDiffer(w.sources, w.targets, w.pairScore);
    SourcesAscend(WorldPairs(w), target);
  }

  // ------------------------------------------------------------ the first source with something due answers

  /** A block of the source is queued that this target may copy now. */
  ghost predicate HasDue(w: World, target: Node, candidates: map<Node, seq<Group>>, s: Node) {
    exists key :: Queued(QueueOf(candidates, s), key) > 0 && Due(w, target, s, key)
  }

  /** The source `o` turns on answered: it has something due, and those whose turn came before have not. */
  ghost predicate AnsweredAt(w: World, target: Node, candidates: map<Node, seq<Group>>, sources: seq<Node>, start: nat,
                             offset: nat, o: nat, source: Node)
    requires sources != []
  {
    && offset <= o < |sources| && source == Turn(sources, start, o) && HasDue(w, target, candidates, source)
    && forall p: nat | offset <= p < o :: !HasDue(w, target, candidates, Turn(sources, start, p))
  }

  lemma TakenWasDue(w: World, target: Node, maxBytes: U64, candidates: map<Node, seq<Group>>, source: Node)
    requires TakeSource(w, WorldPairs(w), target, maxBytes, candidates, source).1.Some?
    ensures TakeSource(w, WorldPairs(w), target, maxBytes, candidates, source).1.value.source == source
    ensures HasDue(w, target, candidates, source)
  {
    var b := TakeSource(w, WorldPairs(w), target, maxBytes, candidates, source).1.value;
    TakeConserves(w, source, PeersIn(WorldPairs(w), source), target, maxBytes, candidates[source], BlockKey("", []));
    var key := BlockKey(b.ns, b.hashes[0]);
    TakeSourceMoves(w, target, maxBytes, candidates, source, source, key);
    assert InBatch(Some(b), key) > 0;
  }

  lemma NotTaken(w: World, target: Node, maxBytes: U64, candidates: map<Node, seq<Group>>, source: Node, s: Node)
    requires TakeSource(w, WorldPairs(w), target, maxBytes, candidates, source).1.None?
    ensures var after := TakeSource(w, WorldPairs(w), target, maxBytes, candidates, source).0;
            HasDue(w, target, after, s) <==> HasDue(w, target, candidates, s)
    ensures !HasDue(w, target, candidates, source)
  {
    var after := TakeSource(w, WorldPairs(w), target, maxBytes, candidates, source).0;
    forall key | Due(w, target, s, key)
      ensures Queued(QueueOf(after, s), key) == Queued(QueueOf(candidates, s), key)
    {
      TakeSourceMoves(w, target, maxBytes, candidates, source, s, key);
    }
    forall key | Queued(QueueOf(candidates, source), key) > 0 ensures !Due(w, target, source, key) {
      TakeSourceMoves(w, target, maxBytes, candidates, source, source, key);
    }
  }

  lemma {:induction false} TriesInTurn(w: World, target: Node, maxBytes: U64, sources: seq<Node>, start: nat,
                                       offset: nat, candidates: map<Node, seq<Group>>) returns (o: nat)
    requires sources != [] && offset <= |sources|
    ensures var answer := TrySources(w, WorldPairs(w), target, maxBytes, sources, start, offset, candidates).1;
            answer.Some? ==>
              && AnsweredAt(w, target, candidates, sources, start, offset, o, answer.value.0.source)
              && answer.value.1 == (start + o) % |sources|
    decreases |sources| - offset
  {
    o := offset;
    if offset < |sources| {
      var source := Turn(sources, start, offset);
      var (after, batch) := TakeSource(w, WorldPairs(w), target, maxBytes, candidates, source);
      if batch.Some? {
        TakenWasDue(w, target, maxBytes, candidates, source);
      } else {
        forall s ensures HasDue(w, target, after, s) <==> HasDue(w, target, candidates, s) {
          NotTaken(w, target, maxBytes, candidates, source, s);
        }
        NotTaken(w, target, maxBytes, candidates, source, source);
        o := TriesInTurn(w, target, maxBytes, sources, start, offset + 1, after);
      }
    }
  }

  ghost function CursorOf(st: State, target: Node): nat { if target in st.cursor then st.cursor[target] else 0 }

  /** The position `o` turns on. */
  ghost function Place(sources: seq<Node>, start: nat, o: nat): (i: nat)
    requires sources != []
    ensures i < |sources| && Turn(sources, start, o) == sources[i]
  {
    (start + o) % |sources|
  }

  /** The source `o` turns behind the cursor answered, and the cursor is behind it now. */
  ghost predicate TurnTaken(w: World, st: State, target: Node, sources: seq<Node>, o: nat, after: State, b: Batch)
    requires sources != []
  {
    && AnsweredAt(w, target, st.candidates, sources, CursorOf(st, target), 0, o, b.source)
    && after.cursor == st.cursor[target := Place(sources, CursorOf(st, target), o) + 1]
  }

  lemma AnsweredInTurn(w: World, st: State, target: Node, maxBytes: U64, sources: seq<Node>) returns (o: nat)
    requires sources != []
    ensures var (after, batch) := Answered(w, WorldPairs(w), st, target, maxBytes, sources);
            if batch.None? then after.cursor == st.cursor
            else TurnTaken(w, st, target, sources, o, after, batch.value)
  {
    o := TriesInTurn(w, target, maxBytes, sources, CursorOf(st, target), 0, st.candidates);
  }

  /** Nodes that are no longer sources or targets are forgotten. */
  ghost predicate Forgets(w: World, st: State, live: State) {
    && (forall s :: s in live.candidates <==> s in st.candidates && s in w.sources)
    && (forall s | s in live.candidates :: live.candidates[s] == st.candidates[s])
    && (forall t :: t in live.cursor <==> t in st.cursor && t in w.targets)
    && (forall t | t in live.cursor :: live.cursor[t] == st.cursor[t])
  }

  /**
   The answer comes from the first source, from the cursor on, that has something due to the target, and the cursor
   moves behind it; without an answer it stays.
   */
  lemma PullTakesTurns(w: World, st: State, target: Node, maxBytes: U64) returns (live: State, o: nat)
    ensures Forgets(w, st, live)
    ensures var (after, batch) := Pull(w, st, target, maxBytes);
            var sources := SourcesIn(WorldPairs(w), target);
            if batch.None? then after.cursor == live.cursor
            else target in w.targets && sources != [] && TurnTaken(w, live, target, sources, o, after, batch.value)
  {
    live, o := Live(w, st), 0;
    var sources := SourcesIn(WorldPairs(w), target);
    if target in w.targets && sources != [] { o := AnsweredInTurn(w, live, target, maxBytes, sources); }
  }

  lemma {:induction false} TrySourcesKeys(w: World, pairs: seq<Pair>, target: Node, maxBytes: U64, sources: seq<Node>,
                                          start: nat, offset: nat, candidates: map<Node, seq<Group>>)
    requires sources != [] && offset <= |sources|
    ensures TrySources(w, pairs, target, maxBytes, sources, start, offset, candidates).0.Keys <= candidates.Keys
    decreases |sources| - offset
  {
    if offset < |sources| {
      var (after, batch) := TakeSource(w, pairs, target, maxBytes, candidates, Turn(sources, start, offset));
      if batch.None? { TrySourcesKeys(w, pairs, target, maxBytes, sources, start, offset + 1, after); }
    }
  }

  lemma AnsweredKeys(w: World, pairs: seq<Pair>, st: State, target: Node, maxBytes: U64, sources: seq<Node>)
    requires sources != []
    ensures Answered(w, pairs, st, target, maxBytes, sources).0.candidates.Keys <= st.candidates.Keys
    ensures Answered(w, pairs, st, target, maxBytes, sources).0.cursor.Keys <= st.cursor.Keys + {target}
  {
    TrySourcesKeys(w, pairs, target, maxBytes, sources, CursorOf(st, target), 0, st.candidates);
  }

  /** After a pull there is no queue of a node that is not a source, and no cursor of one that is not a target. */
  lemma PullForgets(w: World, st: State, target: Node, maxBytes: U64)
    ensures var after := Pull(w, st, target, maxBytes).0;
            (forall s | s in after.candidates :: s in w.sources) && (forall t | t in after.cursor :: t in w.targets)
  {
    var sources := SourcesIn(WorldPairs(w), target);
    if target in w.targets && sources != [] {
      AnsweredKeys(w, WorldPairs(w), Live(w, st), target, maxBytes, sources);
    }
  }

  // ------------------------------------------------------------ nobody answers twice while others wait

  lemma FullRound(n: nat, i: nat, o: nat)
    requires i < n && o < n
    ensures (i + 1 + o) % n == i <==> o == n - 1
  {
    if i + 1 + o < n {
      DivModUnique(n, 0, i + 1 + o);
    } else {
      DivModUnique(n, 1, i + 1 + o - n);
    }
  }

  lemma NextIsAnother(w: World, st: State, target: Node, sources: seq<Node>, i: nat, o: nat, source: Node, other: Node)
    requires NoRepeats(sources) && i < |sources| && other in sources && other != sources[i]
    requires HasDue(w, target, st.candidates, other)
    requires AnsweredAt(w, target, st.candidates, sources, i + 1, 0, o, source)
    ensures source != sources[i]
  {
    RoundVisits(sources, i + 1, other);
    var p :| 0 <= p < |sources| && Turn(sources, i + 1, p) == other;
    FullRound(|sources|, i, p);
    FullRound(|sources|, i, o);
  }

  lemma SourcesNoRepeats(w: World, target: Node)
    requires Distinct(w.sources) && Distinct(w.targets)
    ensures NoRepeats(SourcesIn(WorldPairs(w), target))
  {
    SourcesInNameOrder(w, target);
    var sources := SourcesIn(WorldPairs(w), target);
    forall i, j | 0 <= i < j < |sources| ensures sources[i] != sources[j] {
      NameAsymmetric(sources[i], sources[j]);
    }
  }

  /** While another source has something due to the target, two answers in a row come from different sources. */
  lemma AnswersAlternate(w: World, st: State, target: Node, first: U64, second: U64, other: Node)
    requires Distinct(w.sources) && Distinct(w.targets) && (other, target) in WorldPairs(w)
    requires var (next, a) := Pull(w, st, target, first);
             && a.Some? && Pull(w, next, target, second).1.Some?
             && other != a.value.source && HasDue(w, target, next.candidates, other)
    ensures var (next, a) := Pull(w, st, target, first);
            Pull(w, next, target, second).1.value.source != a.value.source
  {
    var live, o := PullTakesTurns(w, st, target, first);
    var (next, a) := Pull(w, st, target, first);
    var later, p := PullTakesTurns(w, next, target, second);
    var (last, b) := Pull(w, next, target, second);
    PairInRange(w.sources, w.targets, w.pairScore, (other, target));
    StillDue(w, target, next, later, other);
    SourcesNoRepeats(w, target);
    SourcesInPairs(WorldPairs(w), target, other);
    TurnsAlternate(w, live, o, next, a.value, later, p, b.value, target, SourcesIn(WorldPairs(w), target), other);
  }

  lemma TurnsAlternate(w: World, live: State, o: nat, next: State, a: Batch, later: State, p: nat, b: Batch,
                       target: Node, sources: seq<Node>, other: Node)
    requires NoRepeats(sources) && sources != [] && target in w.targets && other in sources && other != a.source
    requires TurnTaken(w, live, target, sources, o, next, a) && Forgets(w, next, later)
    requires AnsweredAt(w, target, later.candidates, sources, CursorOf(later, target), 0, p, b.source)
    requires HasDue(w, target, later.candidates, other)
    ensures b.source != a.source
  {
    var i := TurnPlace(w, live, target, sources, o, next, a);
    CursorMoved(w, live, target, i, next, later);
    NextIsAnother(w, later, target, sources, i, p, b.source, other);
  }

  lemma TurnPlace(w: World, live: State, target: Node, sources: seq<Node>, o: nat, next: State, a: Batch)
    returns (i: nat)
    requires sources != [] && TurnTaken(w, live, target, sources, o, next, a)
    ensures i < |sources| && a.source == sources[i] && next.cursor == live.cursor[target := i + 1]
  {
    i := Place(sources, CursorOf(live, target), o);
  }

  lemma CursorMoved(w: World, live: State, target: Node, i: nat, next: State, later: State)
    requires target in w.targets && next.cursor == live.cursor[target := i + 1] && Forgets(w, next, later)
    ensures CursorOf(later, target) == i + 1
  {
    assert target in next.cursor;
  }

  lemma StillDue(w: World, target: Node, st: State, live: State, s: Node)
    requires Forgets(w, st, live) && s in w.sources && HasDue(w, target, st.candidates, s)
    ensures HasDue(w, target, live.candidates, s)
  {
    assert QueueOf(live.candidates, s) == QueueOf(st.candidates, s);
  }
}
