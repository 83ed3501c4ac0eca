/** Grouping one save batch by block hash: the ordered fast path and the hash-map path. */
module InsertEntries {
  import opened Common
  import opened Seqs
  import opened Blocks
  import opened WritePath

  /** One layer of a batch: `blocks[j]` is the content of hash `hashes[j]` for `slot`. */
  datatype SaveLayer = SaveLayer(slot: nat, blocks: seq<RawBlock>, hashes: seq<Hash>)

  type Triple = (Hash, nat, RawBlock)

  predicate WellFormed(layers: seq<SaveLayer>) {
    forall i | 0 <= i < |layers| :: |layers[i].blocks| == |layers[i].hashes|
  }

  /** All layers list the same hashes in the same order. */
  predicate SharedOrder(layers: seq<SaveLayer>) {
    |layers| > 0 && forall i | 0 <= i < |layers| :: layers[i].hashes == layers[0].hashes
  }

  // ------------------------------------------------------------ the contents of a batch

  function LayerTriples(layer: SaveLayer, n: nat): seq<Triple>
    requires n <= |layer.blocks| == |layer.hashes|
  {
    if n == 0 then [] else LayerTriples(layer, n - 1) + [(layer.hashes[n-1], layer.slot, layer.blocks[n-1])]
  }

  function Triples(layers: seq<SaveLayer>): seq<Triple>
    requires WellFormed(layers)
  {
    if layers == [] then []
    else Triples(layers[..|layers|-1]) + LayerTriples(layers[|layers|-1], |layers[|layers|-1].blocks|)
  }

  function OfWrites(h: Hash, writes: seq<SlotWrite>): seq<Triple> {
    if writes == [] then []
    else OfWrites(h, writes[..|writes|-1]) + [(h, writes[|writes|-1].0, writes[|writes|-1].1)]
  }

  function OfEntries(entries: seq<Entry>): seq<Triple> {
    if entries == [] then []
    else OfEntries(entries[..|entries|-1]) + OfWrites(entries[|entries|-1].key.hash, entries[|entries|-1].writes)
  }

  function Eq(t: Triple): Triple -> bool { (u: Triple) => u == t }

  function Count(ts: seq<Triple>, t: Triple): nat { CountIf(ts, Eq(t)) }

  /** The entries hold every (hash, slot, block) as often as the batch does. */
  ghost predicate Keeps(entries: seq<Entry>, layers: seq<SaveLayer>)
    requires WellFormed(layers)
  {
    forall t :: Count(OfEntries(entries), t) == Count(Triples(layers), t)
  }

  lemma CountPlus(a: seq<Triple>, b: seq<Triple>, t: Triple)
    ensures Count(a + b, t) == Count(a, t) + Count(b, t)
  {
    CountAppend(a, b, Eq(t));
  }

  lemma CountSingle(u: Triple, t: Triple)
    ensures Count([u], t) == if u == t then 1 else 0
  {
    CountOne(u, Eq(t));
  }

  // ------------------------------------------------------------ the hash-map path

  /** The writes of one hash, in batch order. */
  function WritesOf(ts: seq<Triple>, h: Hash): seq<SlotWrite> {
    if ts == [] then []
    else
      var t := ts[|ts|-1];
      if t.0 == h then WritesOf(ts[..|ts|-1], h) + [(t.1, t.2)] else WritesOf(ts[..|ts|-1], h)
  }

  ghost predicate Occurs(ts: seq<Triple>, h: Hash) { exists i | 0 <= i < |ts| :: ts[i].0 == h }

  ghost predicate Grouped(groups: map<Hash, seq<SlotWrite>>, ts: seq<Triple>) {
    && (forall h :: h in groups <==> Occurs(ts, h))
    && (forall h | h in groups :: groups[h] == WritesOf(ts, h))
  }

  lemma NoWrites(ts: seq<Triple>, h: Hash)
    requires !Occurs(ts, h)
    ensures WritesOf(ts, h) == []
  {
    if ts != [] {
      assert ts[|ts|-1].0 != h;
      NoWrites(ts[..|ts|-1], h);
    }
  }

  lemma GroupOne(groups: map<Hash, seq<SlotWrite>>, ts: seq<Triple>, t: Triple)
    requires Grouped(groups, ts)
    ensures Grouped(groups[t.0 := (if t.0 in groups then groups[t.0] else []) + [(t.1, t.2)]], ts + [t])
  {
    var after := ts + [t];
    assert after[..|after|-1] == ts;
    if t.0 !in groups { NoWrites(ts, t.0); }
    forall h ensures Occurs(after, h) <==> Occurs(ts, h) || h == t.0 {
      if Occurs(ts, h) {
        var i :| 0 <= i < |ts| && ts[i].0 == h;
        assert after[i].0 == h;
      }
      assert after[|ts|] == t;
    }
  }

  method GroupByHash(layers: seq<SaveLayer>) returns (groups: map<Hash, seq<SlotWrite>>)
    requires WellFormed(layers)
    ensures Grouped(groups, Triples(layers))
  {
    groups := map[];
    for i := 0 to |layers|
      invariant Grouped(groups, Triples(layers[..i]))
    {
      var layer := layers[i];
      ghost var before := Triples(layers[..i]);
      assert before + [] == before;
      for j := 0 to |layer.blocks|
        invariant Grouped(groups, before + LayerTriples(layer, j))
      {
        var h := layer.hashes[j];
        GroupOne(groups, before + LayerTriples(layer, j), (h, layer.slot, layer.blocks[j]));
        assert before + LayerTriples(layer, j + 1) == before + LayerTriples(layer, j)
               + [(h, layer.slot, layer.blocks[j])];
        groups := groups[h := (if h in groups then groups[h] else []) + [(layer.slot, layer.blocks[j])]];
      }
      assert layers[..i+1][..i] == layers[..i];
    }
    assert layers[..|layers|] == layers;
  }

  ghost predicate HasEntry(entries: seq<Entry>, h: Hash) { exists i | 0 <= i < |entries| :: entries[i].key.hash == h }

  /** One entry for each hash of `done`, with all its writes. */
  ghost predicate Listed(entries: seq<Entry>, ns: string, ts: seq<Triple>, done: set<Hash>) {
    && (forall i | 0 <= i < |entries| ::
          entries[i].key.ns == ns && entries[i].key.hash in done
              && entries[i].writes == WritesOf(ts, entries[i].key.hash))
    && (forall i, j | 0 <= i < j < |entries| :: entries[i].key != entries[j].key)
    && (forall h | h in done :: HasEntry(entries, h))
  }

  ghost predicate Tallied(entries: seq<Entry>, ts: seq<Triple>, done: set<Hash>) {
    forall t :: Count(OfEntries(entries), t) == if t.0 in done then Count(ts, t) else 0
  }

  lemma ListOne(entries: seq<Entry>, ns: string, ts: seq<Triple>, done: set<Hash>, h: Hash)
    requires Listed(entries, ns, ts, done) && h !in done
    ensures Listed(entries + [Entry(BlockKey(ns, h), WritesOf(ts, h))], ns, ts, done + {h})
  {
    var after := entries + [Entry(BlockKey(ns, h), WritesOf(ts, h))];
    forall g | g in done + {h} ensures HasEntry(after, g) {
      if g == h {
        assert after[|entries|].key.hash == g;
      } else {
        var i :| 0 <= i < |entries| && entries[i].key.hash == g;
        assert after[i].key.hash == g;
      }
    }
  }

  lemma TallyOne(entries: seq<Entry>, ts: seq<Triple>, done: set<Hash>, e: Entry)
    requires Tallied(entries, ts, done) && e.key.hash !in done && e.writes == WritesOf(ts, e.key.hash)
    ensures Tallied(entries + [e], ts, done + {e.key.hash})
  {
    forall t ensures Count(OfEntries(entries + [e]), t) == if t.0 in done + {e.key.hash} then Count(ts, t) else 0 {
      CountEntry(entries, e, t);
      CountWrites(ts, e.key.hash, t);
    }
  }

  ghost function HashesOf(ts: seq<Triple>): set<Hash> { set i | 0 <= i < |ts| :: ts[i].0 }

  method ListGroups(ns: string, groups: map<Hash, seq<SlotWrite>>, ghost ts: seq<Triple>) returns (entries: seq<Entry>)
    requires Grouped(groups, ts)
    ensures Listed(entries, ns, ts, groups.Keys) && Tallied(entries, ts, groups.Keys)
  {
    entries := [];
    var left := groups.Keys;
    ghost var done: set<Hash> := {};
    while left != {}
      invariant left <= groups.Keys && done == groups.Keys - left
      invariant Listed(entries, ns, ts, done) && Tallied(entries, ts, done)
      decreases left
    {
      var h :| h in left;
      var e := Entry(BlockKey(ns, h), groups[h]);
      ListOne(entries, ns, ts, done, h);
      TallyOne(entries, ts, done, e);
      TakeOne(groups.Keys, left, h);
      entries, left, done := entries + [e], left - {h}, done + {h};
    }
    assert done == groups.Keys;
  }

  /** One entry per hash, in any order. */
  method HashedEntries(ns: string, layers: seq<SaveLayer>) returns (entries: seq<Entry>)
    requires WellFormed(layers)
    ensures Keeps(entries, layers)
    ensures Listed(entries, ns, Triples(layers), HashesOf(Triples(layers)))
  {
    var groups := GroupByHash(layers);
    ghost var ts := Triples(layers);
    entries := ListGroups(ns, groups, ts);
    assert groups.Keys == HashesOf(ts);
    TallyAll(entries, ts, groups.Keys);
  }

  lemma TallyAll(entries: seq<Entry>, ts: seq<Triple>, done: set<Hash>)
    requires Tallied(entries, ts, done) && forall h :: h in done <==> Occurs(ts, h)
    ensures forall t :: Count(OfEntries(entries), t) == Count(ts, t)
  {
    forall t ensures Count(OfEntries(entries), t) == Count(ts, t) {
      if t.0 !in done { NotCounted(ts, t); }
    }
  }

  lemma {:induction false} NotCounted(ts: seq<Triple>, t: Triple)
    requires !Occurs(ts, t.0)
    ensures Count(ts, t) == 0
  {
    CountPositive(ts, Eq(t));
    assert forall i | 0 <= i < |ts| :: ts[i].0 != t.0;
  }

  lemma {:induction false} CountWrites(ts: seq<Triple>, h: Hash, t: Triple)
    ensures Count(OfWrites(h, WritesOf(ts, h)), t) == if t.0 == h then Count(ts, t) else 0
  {
    if ts != [] {
      var front, last := ts[..|ts|-1], ts[|ts|-1];
      CountWrites(front, h, t);
      assert ts == front + [last];
      CountPlus(front, [last], t);
      CountSingle(last, t);
      if last.0 == h {
        var writes := WritesOf(front, h);
        assert (writes + [(last.1, last.2)])[..|writes|] == writes;
        CountPlus(OfWrites(h, writes), [last], t);
      }
    }
  }

  // ------------------------------------------------------------ the ordered path

  /** What the layers hold for the `j`-th hash. */
  function Column(layers: seq<SaveLayer>, j: nat): seq<SlotWrite>
    requires forall i | 0 <= i < |layers| :: j < |layers[i].blocks|
  {
    if layers == [] then []
    else Column(layers[..|layers|-1], j) + [(layers[|layers|-1].slot, layers[|layers|-1].blocks[j])]
  }

  predicate Aligned(layers: seq<SaveLayer>, hashes: seq<Hash>) {
    forall i | 0 <= i < |layers| :: layers[i].hashes == hashes && |layers[i].blocks| == |hashes|
  }

  /** The first `n` columns as entries. */
  function Columns(ns: string, layers: seq<SaveLayer>, hashes: seq<Hash>, n: nat): (entries: seq<Entry>)
    requires Aligned(layers, hashes) && n <= |hashes|
    ensures |entries| == n
  {
    if n == 0 then []
    else Columns(ns, layers, hashes, n - 1) + [Entry(BlockKey(ns, hashes[n-1]), Column(layers, n - 1))]
  }

  lemma {:induction false} ColumnsAt(ns: string, layers: seq<SaveLayer>, hashes: seq<Hash>, n: nat, j: nat)
    requires Aligned(layers, hashes) && j < n <= |hashes|
    ensures Columns(ns, layers, hashes, n)[j] == Entry(BlockKey(ns, hashes[j]), Column(layers, j))
  {
    if j < n - 1 { ColumnsAt(ns, layers, hashes, n - 1, j); }
  }

  method OrderedEntries(ns: string, layers: seq<SaveLayer>) returns (entries: seq<Entry>)
    requires WellFormed(layers) && SharedOrder(layers)
    ensures Keeps(entries, layers)
    ensures entries == Columns(ns, layers, layers[0].hashes, |layers[0].hashes|)
  {
    var hashes := layers[0].hashes;
    var columns: seq<seq<SlotWrite>> := seq(|hashes|, _ => []);
    for i := 0 to |layers|
      invariant |columns| == |hashes| && Aligned(layers[..i], hashes)
      invariant forall j | 0 <= j < |hashes| :: columns[j] == Column(layers[..i], j)
    {
      var layer := layers[i];
      assert layers[..i+1][..i] == layers[..i];
      for k := 0 to |layer.blocks|
        invariant |columns| == |hashes|
        invariant forall j | 0 <= j < k :: columns[j] == Column(layers[..i+1], j)
        invariant forall j | k <= j < |hashes| :: columns[j] == Column(layers[..i], j)
      {
        columns := columns[k := columns[k] + [(layer.slot, layer.blocks[k])]];
      }
    }
    assert layers[..|layers|] == layers;
    entries := [];
    for j := 0 to |hashes|
      invariant entries == Columns(ns, layers, hashes, j)
    {
      entries := entries + [Entry(BlockKey(ns, hashes[j]), columns[j])];
    }
    forall t ensures Count(OfEntries(entries), t) == Count(Triples(layers), t) {
      CountColumns(ns, layers, hashes, t);
    }
  }

  lemma CountEntry(entries: seq<Entry>, e: Entry, t: Triple)
    ensures Count(OfEntries(entries + [e]), t) == Count(OfEntries(entries), t)
            + Count(OfWrites(e.key.hash, e.writes), t)
  {
    assert (entries + [e])[..|entries|] == entries;
    CountPlus(OfEntries(entries), OfWrites(e.key.hash, e.writes), t);
  }

  lemma CountPush(h: Hash, writes: seq<SlotWrite>, w: SlotWrite, t: Triple)
    ensures Count(OfWrites(h, writes + [w]), t) == Count(OfWrites(h, writes), t) + Count([(h, w.0, w.1)], t)
  {
    assert (writes + [w])[..|writes|] == writes;
    CountPlus(OfWrites(h, writes), [(h, w.0, w.1)], t);
  }

  lemma {:induction false} AddLayer(ns: string, layers: seq<SaveLayer>, hashes: seq<Hash>, n: nat, t: Triple)
    requires layers != [] && Aligned(layers, hashes) && n <= |hashes|
    ensures Aligned(layers[..|layers|-1], hashes)
    ensures Count(OfEntries(Columns(ns, layers, hashes, n)), t) ==
            Count(OfEntries(Columns(ns, layers[..|layers|-1], hashes, n)), t)
                + Count(LayerTriples(layers[|layers|-1], n), t)
  {
    var front, last := layers[..|layers|-1], layers[|layers|-1];
    if n > 0 {
      AddLayer(ns, layers, hashes, n - 1, t);
      var key, w := BlockKey(ns, hashes[n-1]), Column(front, n - 1);
      CountEntry(Columns(ns, front, hashes, n - 1), Entry(key, w), t);
      CountEntry(Columns(ns, layers, hashes, n - 1), Entry(key, w + [(last.slot, last.blocks[n-1])]), t);
      CountPush(hashes[n-1], w, (last.slot, last.blocks[n-1]), t);
      CountPlus(LayerTriples(last, n - 1), [(hashes[n-1], last.slot, last.blocks[n-1])], t);
    }
  }

  lemma {:induction false} NoColumns(ns: string, hashes: seq<Hash>, n: nat)
    requires n <= |hashes|
    ensures OfEntries(Columns(ns, [], hashes, n)) == []
  {
    if n > 0 {
      NoColumns(ns, hashes, n - 1);
      assert Columns(ns, [], hashes, n)[..n-1] == Columns(ns, [], hashes, n - 1);
    }
  }

  lemma {:induction false} CountColumns(ns: string, layers: seq<SaveLayer>, hashes: seq<Hash>, t: Triple)
    requires Aligned(layers, hashes)
    ensures WellFormed(layers)
    ensures Count(OfEntries(Columns(ns, layers, hashes, |hashes|)), t) == Count(Triples(layers), t)
  {
    if layers == [] {
      NoColumns(ns, hashes, |hashes|);
    } else {
      var front, last := layers[..|layers|-1], layers[|layers|-1];
      AddLayer(ns, layers, hashes, |hashes|, t);
      CountColumns(ns, front, hashes, t);
      CountPlus(Triples(front), LayerTriples(last, |hashes|), t);
    }
  }

  // ------------------------------------------------------------ when the two paths agree

  function IsHash(h: Hash): Hash -> bool { (g: Hash) => g == h }

  lemma {:induction false} WritesAppend(a: seq<Triple>, b: seq<Triple>, h: Hash)
    ensures WritesOf(a + b, h) == WritesOf(a, h) + WritesOf(b, h)
  {
    if b == [] {
      assert a + b == a;
    } else {
      assert (a + b)[..|a + b|-1] == a + b[..|b|-1];
      WritesAppend(a, b[..|b|-1], h);
    }
  }

  lemma {:induction false} LayerWrites(layer: SaveLayer, n: nat, h: Hash)
    requires n <= |layer.blocks| == |layer.hashes|
    ensures |WritesOf(LayerTriples(layer, n), h)| == CountIf(layer.hashes[..n], IsHash(h))
  {
    if n > 0 {
      LayerWrites(layer, n - 1, h);
      assert layer.hashes[..n] == layer.hashes[..n-1] + [layer.hashes[n-1]];
      CountAppend(layer.hashes[..n-1], [layer.hashes[n-1]], IsHash(h));
      CountOne(layer.hashes[n-1], IsHash(h));
    }
  }

  lemma {:induction false} LayerWrite(layer: SaveLayer, n: nat, j: nat)
    requires j < n <= |layer.blocks| == |layer.hashes|
    ensures (layer.slot, layer.blocks[j]) in WritesOf(LayerTriples(layer, n), layer.hashes[j])
  {
    if j < n - 1 { LayerWrite(layer, n - 1, j); }
  }

  /** One layer writes a hash as often as it lists it. */
  lemma OneLayer(layer: SaveLayer, j: nat)
    requires j < |layer.hashes| == |layer.blocks|
    ensures var writes, n := WritesOf(LayerTriples(layer, |layer.blocks|), layer.hashes[j]),
                             CountIf(layer.hashes, IsHash(layer.hashes[j]));
            |writes| == n && (n == 1 ==> writes == [(layer.slot, layer.blocks[j])])
  {
    LayerWrites(layer, |layer.blocks|, layer.hashes[j]);
    LayerWrite(layer, |layer.blocks|, j);
    assert layer.hashes[..|layer.blocks|] == layer.hashes;
    var writes := WritesOf(LayerTriples(layer, |layer.blocks|), layer.hashes[j]);
    if |writes| == 1 { OneWrite(writes, (layer.slot, layer.blocks[j])); }
  }

  lemma LastLayer(layers: seq<SaveLayer>, h: Hash)
    requires WellFormed(layers) && layers != []
    ensures var last := layers[|layers|-1];
            WritesOf(Triples(layers), h) ==
            WritesOf(Triples(layers[..|layers|-1]), h) + WritesOf(LayerTriples(last, |last.blocks|), h)
  {
    var last := layers[|layers|-1];
    WritesAppend(Triples(layers[..|layers|-1]), LayerTriples(last, |last.blocks|), h);
  }

  lemma Times(m: nat, n: nat)
    requires m > 0
    ensures (m - 1) * n + n == m * n
  {
  }

  lemma {:induction false} AllWrites(layers: seq<SaveLayer>, hashes: seq<Hash>, j: nat)
    requires Aligned(layers, hashes) && j < |hashes|
    ensures WellFormed(layers)
    ensures |WritesOf(Triples(layers), hashes[j])| == |layers| * CountIf(hashes, IsHash(hashes[j]))
    ensures CountIf(hashes, IsHash(hashes[j])) == 1 ==> WritesOf(Triples(layers), hashes[j]) == Column(layers, j)
  {
    if layers != [] {
      AllWrites(layers[..|layers|-1], hashes, j);
      LastLayer(layers, hashes[j]);
      OneLayer(layers[|layers|-1], j);
      Times(|layers|, CountIf(hashes, IsHash(hashes[j])));
    }
  }

  lemma OneWrite(writes: seq<SlotWrite>, w: SlotWrite)
    requires |writes| == 1 && w in writes
    ensures writes == [w]
  {
  }

  lemma {:induction false} CountOnce(hashes: seq<Hash>, j: nat)
    requires j < |hashes|
    ensures CountIf(hashes, IsHash(hashes[j])) == 1 <==>
              forall i | 0 <= i < |hashes| && i != j :: hashes[i] != hashes[j]
  {
    var p := IsHash(hashes[j]);
    var a, b := hashes[..j], hashes[j+1..];
    assert hashes == a + [hashes[j]] + b;
    CountAppend(a + [hashes[j]], b, p);
    CountAppend(a, [hashes[j]], p);
    CountOne(hashes[j], p);
    CountPositive(a, p);
    CountPositive(b, p);
    assert forall i | 0 <= i < j :: hashes[i] == a[i];
    assert forall i | j < i < |hashes| :: hashes[i] == b[i - j - 1];
  }

  /** The ordered path groups like the hash-map path exactly when no hash is repeated. */
  lemma PathsAgree(ns: string, layers: seq<SaveLayer>)
    requires WellFormed(layers) && SharedOrder(layers)
    ensures Aligned(layers, layers[0].hashes)
    ensures NoRepeats(layers[0].hashes) <==>
              forall j | 0 <= j < |layers[0].hashes| ::
                Columns(ns, layers, layers[0].hashes, |layers[0].hashes|)[j].writes ==
                  WritesOf(Triples(layers), layers[0].hashes[j])
  {
    var hashes := layers[0].hashes;
    forall j | 0 <= j < |hashes|
      ensures Columns(ns, layers, hashes, |hashes|)[j].writes == WritesOf(Triples(layers), hashes[j]) <==>
                forall i | 0 <= i < |hashes| && i != j :: hashes[i] != hashes[j]
    {
      ColumnsAt(ns, layers, hashes, |hashes|, j);
      AllWrites(layers, hashes, j);
      CountOnce(hashes, j);
      ColumnLength(layers, j);
      OnlyOne(|layers|, CountIf(hashes, IsHash(hashes[j])));
    }
  }

  /** A hash listed twice: the ordered path makes two entries of it, the hash map one. */
  lemma RepeatedHashSplits(ns: string, a: RawBlock, b: RawBlock, h: Hash)
    ensures var layers := [SaveLayer(0, [a, b], [h, h])];
            && WellFormed(layers) && SharedOrder(layers)
            && Columns(ns, layers, [h, h], 2)[0].writes == [(0, a)] && WritesOf(Triples(layers), h) == [(0, a), (0, b)]
  {
    var layer := SaveLayer(0, [a, b], [h, h]);
    var layers := [layer];
    ColumnsAt(ns, layers, [h, h], 2, 0);
    assert layers[..0] == [];
    assert Column(layers, 0) == [(0, a)];
    assert LayerTriples(layer, 1) == [(h, 0, a)];
    assert LayerTriples(layer, 2) == [(h, 0, a), (h, 0, b)];
    var first: Triple, second: Triple := (h, 0, a), (h, 0, b);
    assert Triples(layers) == Triples(layers[..0]) + LayerTriples(layer, 2) == [first, second];
    assert [first, second][..1] == [first] && [first][..0] == [];
    assert WritesOf([first], h) == WritesOf([first][..0], h) + [(0, a)];
    assert WritesOf([first, second], h) == WritesOf([first], h) + [(0, b)];
  }

  lemma OnlyOne(m: nat, n: nat)
    requires m > 0
    ensures m * n == m <==> n == 1
  {
    if n > 1 { MulGap(m, 1, n); }
  }

  lemma {:induction false} ColumnLength(layers: seq<SaveLayer>, j: nat)
    requires forall i | 0 <= i < |layers| :: j < |layers[i].blocks|
    ensures |Column(layers, j)| == |layers|
  {
    if layers != [] { ColumnLength(layers[..|layers|-1], j); }
  }

  lemma {:induction false} ColumnAt(layers: seq<SaveLayer>, j: nat, i: nat)
    requires (forall k | 0 <= k < |layers| :: j < |layers[k].blocks|) && i < |layers|
    ensures i < |Column(layers, j)| && Column(layers, j)[i] == (layers[i].slot, layers[i].blocks[j])
  {
    ColumnLength(layers, j);
    ColumnLength(layers[..|layers|-1], j);
    if i < |layers| - 1 { ColumnAt(layers[..|layers|-1], j, i); }
  }

  /** The entry of the `j`-th hash lists what every layer has for it, in layer order. */
  ghost predicate OrderedEntry(ns: string, layers: seq<SaveLayer>, j: nat, e: Entry) {
    && layers != [] && j < |layers[0].hashes| && e.key == BlockKey(ns, layers[0].hashes[j]) && |e.writes| == |layers|
    && forall i | 0 <= i < |layers| ::
         j < |layers[i].blocks| && e.writes[i] == (layers[i].slot, layers[i].blocks[j])
  }

  ghost predicate WrittenAt(ts: seq<Triple>, h: Hash, writes: seq<SlotWrite>, at: seq<nat>) {
    && |at| == |writes| && (forall k, m | 0 <= k < m < |at| :: at[k] < at[m])
    && (forall m | 0 <= m < |at| :: at[m] < |ts| && writes[m] == (ts[at[m]].1, ts[at[m]].2))
    && forall i: nat | i < |ts| :: i in at <==> ts[i].0 == h
  }

  lemma WrittenNext(ts: seq<Triple>, h: Hash, writes: seq<SlotWrite>, at: seq<nat>, t: Triple)
    requires WrittenAt(ts, h, writes, at)
    ensures WrittenAt(ts + [t], h, writes + if t.0 == h then [(t.1, t.2)] else [], at + if t.0 == h then [|ts|] else [])
  {
    var more, all := at + (if t.0 == h then [|ts|] else []), ts + [t];
    forall i: nat | i < |all| ensures i in more <==> all[i].0 == h {
      if i < |ts| { assert all[i] == ts[i] && (i in more <==> i in at); }
    }
  }

  /** The writes of a hash are those listed with it, as often and in the order listed. */
  lemma {:induction false} WritesExactly(ts: seq<Triple>, h: Hash) returns (at: seq<nat>)
    ensures WrittenAt(ts, h, WritesOf(ts, h), at)
  {
    at := [];
    if ts != [] {
      var front, t := ts[..|ts|-1], ts[|ts|-1];
      at := WritesExactly(front, h);
      WrittenNext(front, h, WritesOf(front, h), at, t);
      at := at + if t.0 == h then [|front|] else [];
      assert ts == front + [t];
    }
  }

  lemma OrderedEntryAt(ns: string, layers: seq<SaveLayer>, j: nat)
    requires WellFormed(layers) && SharedOrder(layers) && j < |layers[0].hashes|
    ensures Aligned(layers, layers[0].hashes)
    ensures OrderedEntry(ns, layers, j, Columns(ns, layers, layers[0].hashes, |layers[0].hashes|)[j])
  {
    ColumnsAt(ns, layers, layers[0].hashes, |layers[0].hashes|, j);
    ColumnLength(layers, j);
    forall i | 0 <= i < |layers| ensures Column(layers, j)[i] == (layers[i].slot, layers[i].blocks[j]) {
      ColumnAt(layers, j, i);
    }
  }

  /** Takes the ordered path exactly when the layers share their hash order. */
  method BuildInsertEntries(ns: string, layers: seq<SaveLayer>) returns (entries: seq<Entry>)
    requires WellFormed(layers)
    ensures Keeps(entries, layers)
    ensures forall i | 0 <= i < |entries| :: entries[i].key.ns == ns && entries[i].writes != []
    ensures SharedOrder(layers) ==>
              && |entries| == |layers[0].hashes|
              && forall j | 0 <= j < |entries| :: OrderedEntry(ns, layers, j, entries[j])
    ensures !SharedOrder(layers) ==> Listed(entries, ns, Triples(layers), HashesOf(Triples(layers)))
  {
    if SharedOrder(layers) {
      entries := OrderedEntries(ns, layers);
      forall j | 0 <= j < |entries| ensures OrderedEntry(ns, layers, j, entries[j]) { OrderedEntryAt(ns, layers, j); }
    } else {
      entries := HashedEntries(ns, layers);
      ghost var ts := Triples(layers);
      forall j | 0 <= j < |entries| ensures entries[j].key.ns == ns && entries[j].writes != [] {
        ListedOccurs(entries, ns, ts, j);
      }
    }
  }

  lemma ListedOccurs(entries: seq<Entry>, ns: string, ts: seq<Triple>, j: nat)
    requires Listed(entries, ns, ts, HashesOf(ts)) && j < |entries|
    ensures entries[j].key.ns == ns && entries[j].writes != []
  {
    var h := entries[j].key.hash;
    assert h in HashesOf(ts) && entries[j].writes == WritesOf(ts, h);
    var i :| 0 <= i < |ts| && ts[i].0 == h;
    SomeWrites(ts, i);
  }

  lemma {:induction false} SomeWrites(ts: seq<Triple>, i: nat)
    requires i < |ts|
    ensures WritesOf(ts, ts[i].0) != []
  {
    if i < |ts| - 1 { SomeWrites(ts[..|ts|-1], i); }
  }
}
