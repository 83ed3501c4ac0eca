/** Loading blocks: from leased sealed blocks and destinations to the copies onto a device. */
module LoadPath {
  import opened Common
  import opened Seqs
  import opened Blocks
  import opened CopyDescs
  import opened Topology
  import opened Sealing
  import opened SavePath

  /** Blocks reserved by a query and, per load group, the device block each one goes to. */
  datatype Lease = Lease(blocks: seq<(BlockKey, SealedBlock)>, targets: seq<seq<Option<nat>>>)

  datatype Target = Target(dest: nat, key: BlockKey, block: SealedBlock)

  datatype LoadError =
    NoGroups | RepeatedLayer | UnknownName | MixedStorageGroups | GroupCount | BlockCount | SlotCount
    | NotRegistered | RankRange | MissingSlot | NoWorker | BadDestination

  // ------------------------------------------------------------ layer names

  function Flatten(groups: seq<seq<string>>): seq<string> {
    if groups == [] then [] else Flatten(groups[..|groups|-1]) + groups[|groups|-1]
  }

  /** No layer is named twice. */
  ghost predicate NamedOnce(groups: seq<seq<string>>) {
    forall g, k, h, m | 0 <= g < |groups| && 0 <= k < |groups[g]| && 0 <= h < |groups| && 0 <= m < |groups[h]|
                        && groups[g][k] == groups[h][m] ::
      g == h && k == m
  }

  lemma {:induction false} FlattenHas(groups: seq<seq<string>>, n: string)
    ensures n in Flatten(groups) <==> exists g, k | 0 <= g < |groups| && 0 <= k < |groups[g]| :: groups[g][k] == n
  {
    if groups != [] {
      var front, last := groups[..|groups|-1], groups[|groups|-1];
      FlattenHas(front, n);
      if n in last {
        var k :| 0 <= k < |last| && last[k] == n;
        assert groups[|groups|-1][k] == n;
      }
    }
  }

  lemma {:induction false} OnceFlat(groups: seq<seq<string>>)
    requires NamedOnce(groups)
    ensures NoRepeats(Flatten(groups))
  {
    if groups != [] {
      var n := |groups| - 1;
      var front, last := groups[..n], groups[n];
      OnceFlat(front);
      forall k | 0 <= k < |last| ensures last[k] !in Flatten(front) {
        FlattenHas(front, last[k]);
        assert groups[n][k] == last[k];
      }
    }
  }

  lemma NotEarlier(groups: seq<seq<string>>, h: nat, m: nat, g: nat, k: nat)
    requires NoRepeats(Flatten(groups)) && h < |groups| && m < |groups[h]| && g < |groups| && k < |groups[g]|
    requires h < g || (h == g && m < k)
    ensures groups[h][m] != groups[g][k]
  {
    FreshName(groups, g, k);
    if h < g {
      FlattenHas(groups[..g], groups[h][m]);
      assert groups[..g][h][m] == groups[h][m];
    } else {
      assert groups[g][..k][m] == groups[h][m];
    }
  }

  /** The names are counted over all groups together. */
  lemma NamedOnceExactly(groups: seq<seq<string>>)
    ensures NoRepeats(Flatten(groups)) <==> NamedOnce(groups)
  {
    if NamedOnce(groups) { OnceFlat(groups); }
    if NoRepeats(Flatten(groups)) {
      forall g, k, h, m | 0 <= g < |groups| && 0 <= k < |groups[g]| && 0 <= h < |groups| && 0 <= m < |groups[h]|
                          && groups[g][k] == groups[h][m]
        ensures g == h && k == m
      {
        if h < g || (h == g && m < k) {
          NotEarlier(groups, h, m, g, k);
        } else if (h, m) != (g, k) {
          NotEarlier(groups, g, k, h, m);
        }
      }
    }
  }

  function Elements(names: seq<string>): set<string> { set n | n in names }

  lemma {:induction false} ElementsCount(names: seq<string>)
    ensures |Elements(names)| <= |names|
    ensures |Elements(names)| == |names| <==> NoRepeats(names)
  {
    if names != [] {
      var front, last := names[..|names|-1], names[|names|-1];
      ElementsCount(front);
      assert names == front + [last];
      assert Elements(names) == Elements(front) + {last};
      if last in front {
        assert Elements(names) == Elements(front);
        var i :| 0 <= i < |front| && front[i] == last;
        assert names[i] == names[|names|-1];
      } else {
        assert last !in Elements(front);
      }
    }
  }

  ghost predicate GroupKnown(t: LayerTopology, names: seq<string>, g: Option<nat>) {
    && (g.None? <==> names == [])
    && forall k | 0 <= k < |names| ::
      names[k] in t.ids && t.ids[names[k]] < |t.layerGroup| && g == Some(t.layerGroup[t.ids[names[k]]])
  }

  /** All names are layers of the instance, and of one storage group. */
  ghost predicate OneStorageGroup(t: LayerTopology, names: seq<string>) { exists g :: GroupKnown(t, names, g) }

  ghost predicate AllKnown(t: LayerTopology, names: seq<string>) { forall n | n in names :: n in t.ids }

  /** The storage group of every load group; a load group must not mix storage groups. */
  method StorageGroups(t: LayerTopology, groups: seq<seq<string>>) returns (r: Result<seq<Option<nat>>, LoadError>)
    requires Numbered(t.names, t.ids) && Shaped(t)
    ensures r.Ok? <==> forall i | 0 <= i < |groups| :: OneStorageGroup(t, groups[i])
    ensures r.Ok? ==> |r.value| == |groups| && forall i | 0 <= i < |groups| :: GroupKnown(t, groups[i], r.value[i])
    ensures r.Err? ==>
              r.error == MixedStorageGroups
              || (r.error == UnknownName && exists i | 0 <= i < |groups| :: !AllKnown(t, groups[i]))
  {
    var found: seq<Option<nat>> := [];
    for i := 0 to |groups|
      invariant |found| == i && forall h | 0 <= h < i :: GroupKnown(t, groups[h], found[h])
    {
      var g: Option<nat> := None;
      for k := 0 to |groups[i]|
        invariant GroupKnown(t, groups[i][..k], g)
      {
        var name := groups[i][k];
        if name !in t.ids {
          assert !AllKnown(t, groups[i]) by { assert groups[i][k] in groups[i]; }
          assert !OneStorageGroup(t, groups[i]);
          return Err(UnknownName);
        }
        IdOf(t.names, t.ids, name);
        var layerGroup := t.layerGroup[t.ids[name]];
        if g.Some? && g.value != layerGroup {
          assert groups[i][..k][0] == groups[i][0];
          assert !OneStorageGroup(t, groups[i]);
          return Err(MixedStorageGroups);
        }
        g := Some(layerGroup);
        assert groups[i][..k+1] == groups[i][..k] + [name];
      }
      assert groups[i][..|groups[i]|] == groups[i];
      found := found + [g];
    }
    r := Ok(found);
  }

  // ------------------------------------------------------------ targets

  /** Destinations of the first `n` leased blocks in load group `g`. */
  function LeaseTargets(l: Lease, g: nat, n: nat): seq<Target>
    requires g < |l.targets| && n <= |l.targets[g]| && n <= |l.blocks|
  {
    if n == 0 then []
    else
      var front := LeaseTargets(l, g, n - 1);
      var to := l.targets[g][n-1];
      if to.Some? then front + [Target(to.value, l.blocks[n-1].0, l.blocks[n-1].1)] else front
  }

  ghost predicate LeaseShaped(l: Lease, numGroups: nat) {
    |l.targets| == numGroups && forall g | 0 <= g < numGroups :: |l.targets[g]| == |l.blocks|
  }

  /** Every block that has a destination has as many slots as the storage group it is loaded into. */
  ghost predicate SlotsMatch(l: Lease, g: nat, expected: Option<nat>)
    requires g < |l.targets| && |l.targets[g]| == |l.blocks|
  {
    expected.Some? ==>
      forall k | 0 <= k < |l.blocks| && l.targets[g][k].Some? :: |l.blocks[k].1.slots| == expected.value
  }

  ghost predicate LeaseOk(l: Lease, expected: seq<Option<nat>>) {
    LeaseShaped(l, |expected|) && forall g | 0 <= g < |expected| :: SlotsMatch(l, g, expected[g])
  }

  /** What is wrong with a lease. */
  ghost predicate LeaseRefused(l: Lease, expected: seq<Option<nat>>, error: LoadError) {
    if |l.targets| != |expected| then error == GroupCount
    else exists g | 0 <= g < |expected| ::
           if |l.targets[g]| != |l.blocks| then error == BlockCount
           else error == SlotCount && !SlotsMatch(l, g, expected[g])
  }

  method CheckLease(l: Lease, expected: seq<Option<nat>>) returns (r: Option<LoadError>)
    ensures r.None? <==> LeaseOk(l, expected)
    ensures r.Some? ==> LeaseRefused(l, expected, r.value)
  {
    if |l.targets| != |expected| { return Some(GroupCount); }
    for g := 0 to |expected|
      invariant forall h | 0 <= h < g :: |l.targets[h]| == |l.blocks| && SlotsMatch(l, h, expected[h])
    {
      if |l.targets[g]| != |l.blocks| { return Some(BlockCount); }
      if expected[g].Some? && exists k | 0 <= k < |l.blocks| ::
        l.targets[g][k].Some? && |l.blocks[k].1.slots| != expected[g].value {
        assert !SlotsMatch(l, g, expected[g]);
        return Some(SlotCount);
      }
    }
    r := None;
  }

  ghost function TargetsOf(leases: seq<Lease>, g: nat, numGroups: nat): seq<Target>
    requires g < numGroups && forall i | 0 <= i < |leases| :: LeaseShaped(leases[i], numGroups)
  {
    if leases == [] then []
    else
      assert LeaseShaped(leases[|leases|-1], numGroups);
      TargetsOf(leases[..|leases|-1], g, numGroups) + LeaseTargets(leases[|leases|-1], g, |leases[|leases|-1].blocks|)
  }

  method CollectTargets(leases: seq<Lease>, expected: seq<Option<nat>>) returns (r: Result<seq<seq<Target>>, LoadError>)
    ensures r.Ok? <==> forall i | 0 <= i < |leases| :: LeaseOk(leases[i], expected)
    ensures r.Err? ==> exists i | 0 <= i < |leases| :: LeaseRefused(leases[i], expected, r.error)
    ensures r.Ok? ==>
              |r.value| == |expected| && forall g | 0 <= g < |expected| :: TargetsListed(leases, g, r.value[g])
  {
    var all: seq<seq<Target>> := seq(|expected|, _ => []);
    for i := 0 to |leases|
      invariant forall h | 0 <= h < i :: LeaseOk(leases[h], expected)
      invariant |all| == |expected| && forall g | 0 <= g < |expected| :: all[g] == TargetsOf(leases[..i], g, |expected|)
    {
      var refused := CheckLease(leases[i], expected);
      if refused.Some? { return Err(refused.value); }
      var l := leases[i];
      var n := |expected|;
      all := seq(n, g requires 0 <= g < n && |all| == n
                 && LeaseShaped(l, n) => all[g] + LeaseTargets(l, g, |l.blocks|));
      assert leases[..i+1][..i] == leases[..i];
    }
    assert leases[..|leases|] == leases;
    forall g | 0 <= g < |expected| ensures TargetsListed(leases, g, all[g]) { TargetsRead(leases, g, |expected|); }
    r := Ok(all);
  }

  /** Target `x` is block `k` of lease `i`. */
  ghost predicate Leased(leases: seq<Lease>, g: nat, i: nat, k: nat, x: Target) {
    && i < |leases| && g < |leases[i].targets| && k < |leases[i].targets[g]| && k < |leases[i].blocks|
    && leases[i].targets[g][k] == Some(x.dest) && leases[i].blocks[k] == (x.key, x.block)
  }

  /** Places in the leases that are read earlier: an earlier lease, or an earlier block of it. */
  ghost predicate ReadBefore(a: (nat, nat), b: (nat, nat)) { a.0 < b.0 || (a.0 == b.0 && a.1 < b.1) }

  /** The targets are read at the places `at`, in order, and no place with a destination is left out. */
  ghost predicate ReadAt(leases: seq<Lease>, g: nat, targets: seq<Target>, at: seq<(nat, nat)>) {
    && |at| == |targets| && (forall j, m | 0 <= j < m < |at| :: ReadBefore(at[j], at[m]))
    && (forall j | 0 <= j < |at| :: Leased(leases, g, at[j].0, at[j].1, targets[j]))
    && forall i: nat, k: nat, x | Leased(leases, g, i, k, x) :: (i, k) in at
  }

  /** The targets of load group `g`: every leased block with a destination in it, once, in the order of the leases. */
  ghost predicate TargetsListed(leases: seq<Lease>, g: nat, targets: seq<Target>) {
    exists at :: ReadAt(leases, g, targets, at)
  }

  ghost predicate LeaseReadAt(l: Lease, g: nat, n: nat, targets: seq<Target>, at: seq<nat>)
    requires g < |l.targets| && n <= |l.targets[g]| && n <= |l.blocks|
  {
    && |at| == |targets| && (forall j, m | 0 <= j < m < |at| :: at[j] < at[m])
    && (forall j | 0 <= j < |at| :: at[j] < n && l.targets[g][at[j]] == Some(targets[j].dest)
                                    && l.blocks[at[j]] == (targets[j].key, targets[j].block))
    && forall k: nat | k < n && l.targets[g][k].Some? :: k in at
  }

  lemma {:induction false} LeasePlaces(l: Lease, g: nat, n: nat) returns (at: seq<nat>)
    requires g < |l.targets| && n <= |l.targets[g]| && n <= |l.blocks|
    ensures LeaseReadAt(l, g, n, LeaseTargets(l, g, n), at)
  {
    at := [];
    if n > 0 {
      at := LeasePlaces(l, g, n - 1);
      if l.targets[g][n-1].Some? { at := at + [n - 1]; }
    }
  }

  /** One more lease is read behind the others. */
  lemma MorePlaces(leases: seq<Lease>, g: nat, before: seq<Target>, at: seq<(nat, nat)>, more: seq<Target>,
                   ks: seq<nat>) returns (all: seq<(nat, nat)>)
    requires leases != [] && ReadAt(leases[..|leases|-1], g, before, at)
    requires var l := leases[|leases|-1];
             g < |l.targets| && |l.blocks| <= |l.targets[g]| && LeaseReadAt(l, g, |l.blocks|, more, ks)
    ensures ReadAt(leases, g, before + more, all)
  {
    var n := |leases| - 1;
    all := at + seq(|ks|, j requires 0 <= j < |ks| => (n, ks[j]));
    forall j | 0 <= j < |all| ensures Leased(leases, g, all[j].0, all[j].1, (before + more)[j]) {
      if j < |at| { assert Leased(leases[..n], g, at[j].0, at[j].1, before[j]); }
    }
    forall i: nat, k: nat, x | Leased(leases, g, i, k, x) ensures (i, k) in all {
      if i < n {
        assert Leased(leases[..n], g, i, k, x);
      } else {
        var j :| 0 <= j < |ks| && ks[j] == k;
        assert all[|at| + j] == (i, k);
      }
    }
  }

  /** The targets that are collected are listed. */
  lemma {:induction false} TargetsRead(leases: seq<Lease>, g: nat, numGroups: nat)
    requires g < numGroups && forall i | 0 <= i < |leases| :: LeaseShaped(leases[i], numGroups)
    ensures TargetsListed(leases, g, TargetsOf(leases, g, numGroups))
  {
    if leases == [] {
      assert ReadAt(leases, g, [], []);
    } else {
      var front, l := leases[..|leases|-1], leases[|leases|-1];
      TargetsRead(front, g, numGroups);
      var at :| ReadAt(front, g, TargetsOf(front, g, numGroups), at);
      assert LeaseShaped(l, numGroups);
      var ks := LeasePlaces(l, g, |l.blocks|);
      var all := MorePlaces(leases, g, TargetsOf(front, g, numGroups), at, LeaseTargets(l, g, |l.blocks|), ks);
    }
  }

  /** A target is a leased block with its destination, and every such block is a target. */
  lemma TargetFrom(leases: seq<Lease>, g: nat, targets: seq<Target>, x: Target)
    requires TargetsListed(leases, g, targets)
    ensures x in targets <==> exists i: nat, k: nat :: Leased(leases, g, i, k, x)
  {
    var at: seq<(nat, nat)> :| ReadAt(leases, g, targets, at);
    if x in targets {
      var j :| 0 <= j < |targets| && targets[j] == x;
      assert Leased(leases, g, at[j].0, at[j].1, x);
    }
    if i: nat, k: nat :| Leased(leases, g, i, k, x) {
      var j :| 0 <= j < |at| && at[j] == (i, k);
      assert Leased(leases, g, at[j].0, at[j].1, targets[j]);
    }
  }

  /** Blocks that are loaded passed the slot-count check. */
  lemma TargetSlots(leases: seq<Lease>, g: nat, expected: seq<Option<nat>>, i: nat, k: nat, x: Target)
    requires g < |expected| && (forall h | 0 <= h < |leases| :: LeaseOk(leases[h], expected))
    requires Leased(leases, g, i, k, x)
    ensures expected[g].Some? ==> |x.block.slots| == expected[g].value
  {
    assert LeaseOk(leases[i], expected) && SlotsMatch(leases[i], g, expected[g]);
  }

  /** Places with different destinations give targets with different destinations. */
  ghost predicate DestsDiffer(leases: seq<Lease>, g: nat) {
    forall i: nat, k: nat, x, j: nat, m: nat, y |
      Leased(leases, g, i, k, x) && Leased(leases, g, j, m, y) && (i, k) != (j, m) :: x.dest != y.dest
  }

  lemma TargetsDiffer(leases: seq<Lease>, g: nat, targets: seq<Target>, j: nat, m: nat)
    requires TargetsListed(leases, g, targets) && DestsDiffer(leases, g) && j < m < |targets|
    ensures targets[j].dest != targets[m].dest
  {
    var at: seq<(nat, nat)> :| ReadAt(leases, g, targets, at);
    assert ReadBefore(at[j], at[m]);
    assert Leased(leases, g, at[j].0, at[j].1, targets[j]) && Leased(leases, g, at[m].0, at[m].1, targets[m]);
  }

  // ------------------------------------------------------------ the copies of a load

  /** Layer `name` of the load: every target, read from the layer's slot at the layer's position in it. */
  function LayerFor(t: LayerTopology, w: Worker, rank: nat, name: string, targets: seq<Target>): LayerTransfer
    requires Shaped(t) && name in w.caches && name in t.ids && t.ids[name] < |t.names|
             && SlotIndex(t, t.ids[name], rank).Ok?
  {
    var x := t.ids[name];
    var slot := SlotIndex(t, x, rank).value;
    LayerTransfer(w.caches[name], seq(|targets|, j requires 0 <= j < |targets| =>
                                        TransferBlock(targets[j].dest, Cached(targets[j].block, slot, StartFor(t, x)))))
  }

  ghost predicate Loadable(t: LayerTopology, w: Worker, rank: nat, name: string) {
    Shaped(t) && name in w.caches && name in t.ids && t.ids[name] < |t.names| && SlotIndex(t, t.ids[name], rank).Ok?
  }

  /** Every target has the slot that the layer is read from. */
  ghost predicate HasSlots(t: LayerTopology, rank: nat, name: string, targets: seq<Target>)
    requires Shaped(t) && name in t.ids && SlotIndex(t, t.ids[name], rank).Ok?
  {
    forall j | 0 <= j < |targets| :: SlotIndex(t, t.ids[name], rank).value < |targets[j].block.slots|
  }

  ghost predicate AllLoadable(t: LayerTopology, w: Worker, rank: nat, names: seq<string>) {
    forall k | 0 <= k < |names| :: Loadable(t, w, rank, names[k])
  }

  /** `layers[i]` loads layer `names[i]` for the load group `of[i]`. */
  ghost predicate Builds(t: LayerTopology, w: Worker, rank: nat, groups: seq<seq<string>>, targets: seq<seq<Target>>,
                         layers: seq<LayerTransfer>, names: seq<string>, of: seq<nat>) {
    && |layers| == |names| == |of| && |targets| == |groups| && NoRepeats(names)
    && forall i | 0 <= i < |layers| ::
         && of[i] < |groups| && names[i] in groups[of[i]] && targets[of[i]] != []
         && Loadable(t, w, rank, names[i]) && layers[i] == LayerFor(t, w, rank, names[i], targets[of[i]])
  }

  /** Every layer of a load group that has targets is loaded. */
  ghost predicate Complete(groups: seq<seq<string>>, targets: seq<seq<Target>>, names: seq<string>, of: seq<nat>)
    requires |targets| == |groups| && |names| == |of|
  {
    forall g, k | 0 <= g < |groups| && 0 <= k < |groups[g]| && targets[g] != [] :: Loads(names, of, groups[g][k], g)
  }

  ghost predicate Loads(names: seq<string>, of: seq<nat>, name: string, g: nat)
    requires |names| == |of|
  {
    exists i | 0 <= i < |names| :: names[i] == name && of[i] == g
  }

  /** Why a layer cannot be loaded. */
  ghost predicate LayerRefused(t: LayerTopology, w: Worker, rank: nat, name: string, error: LoadError) {
    if name !in t.ids then error == UnknownName
    else if name !in w.caches then error == NotRegistered
    else error == RankRange && rank >= t.tpSize
  }

  method BuildLayer(t: LayerTopology, w: Worker, rank: nat, name: string, targets: seq<Target>)
    returns (r: Result<LayerTransfer, LoadError>)
    requires Numbered(t.names, t.ids) && Shaped(t)
    ensures r.Ok? <==> Loadable(t, w, rank, name) && HasSlots(t, rank, name, targets)
    ensures r.Ok? ==> r.value == LayerFor(t, w, rank, name, targets)
    ensures r.Err? && r.error != MissingSlot ==> LayerRefused(t, w, rank, name, r.error)
    ensures r == Err(MissingSlot) <==> Loadable(t, w, rank, name) && !HasSlots(t, rank, name, targets)
  {
    if name !in t.ids { return Err(UnknownName); }
    IdOf(t.names, t.ids, name);
    if name !in w.caches { return Err(NotRegistered); }
    var x := t.ids[name];
    var slot := SlotIndex(t, x, rank);
    if slot.Err? { return Err(RankRange); }
    var start := StartFor(t, x);
    var blocks: seq<TransferBlock> := [];
    for j := 0 to |targets|
      invariant |blocks| == j && forall k | 0 <= k < j :: slot.value < |targets[k].block.slots|
      invariant forall k | 0 <= k < j ::
                  blocks[k] == TransferBlock(targets[k].dest, Cached(targets[k].block, slot.value, start))
    {
      if slot.value >= |targets[j].block.slots| { return Err(MissingSlot); }
      blocks := blocks + [TransferBlock(targets[j].dest, Cached(targets[j].block, slot.value, start))];
    }
    assert blocks == LayerFor(t, w, rank, name, targets).blocks;
    r := Ok(LayerTransfer(w.caches[name], blocks));
  }

  lemma {:induction false} FlattenPrefix(groups: seq<seq<string>>, n: nat)
    requires n <= |groups|
    ensures Flatten(groups[..n]) <= Flatten(groups)
  {
    if n == |groups| {
      assert groups[..n] == groups;
    } else {
      var front := groups[..|groups|-1];
      FlattenPrefix(front, n);
      assert front[..n] == groups[..n];
    }
  }

  /** A name that is listed once has not come up before. */
  lemma FreshName(groups: seq<seq<string>>, g: nat, k: nat)
    requires NoRepeats(Flatten(groups)) && g < |groups| && k < |groups[g]|
    ensures groups[g][k] !in Flatten(groups[..g]) + groups[g][..k]
  {
    var all, before := Flatten(groups), Flatten(groups[..g]);
    FlattenPrefix(groups, g + 1);
    assert groups[..g+1][..g] == groups[..g];
    assert before + groups[g] <= all;
    assert all[|before| + k] == groups[g][k];
    forall i | 0 <= i < |before| + k ensures (before + groups[g][..k])[i] != groups[g][k] {
      assert (before + groups[g][..k])[i] == all[i];
    }
  }

  ghost predicate Seen(names: seq<string>, prefix: seq<string>) { forall n | n in names :: n in prefix }

  /** Layers without targets are left out. */
  method BuildGroup(t: LayerTopology, w: Worker, rank: nat, groups: seq<seq<string>>, targets: seq<seq<Target>>, g: nat,
                    start: seq<LayerTransfer>, ghost names0: seq<string>, ghost of0: seq<nat>)
    returns (r: Result<seq<LayerTransfer>, LoadError>, ghost names: seq<string>, ghost of: seq<nat>)
    requires Numbered(t.names, t.ids) && Shaped(t) && NoRepeats(Flatten(groups)) && g < |groups|
    requires Builds(t, w, rank, groups, targets, start, names0, of0) && Seen(names0, Flatten(groups[..g]))
    ensures r.Ok? ==> Builds(t, w, rank, groups, targets, r.value, names, of) && Seen(names, Flatten(groups[..g+1]))
    ensures r.Ok? ==> names0 <= names && of0 <= of
    ensures r.Ok? && targets[g] != [] ==> forall k | 0 <= k < |groups[g]| :: Loads(names, of, groups[g][k], g)
    ensures r.Ok? ==> AllLoadable(t, w, rank, groups[g])
    ensures r.Err? ==>
              if r.error == MissingSlot then MissedSlot(t, rank, groups, targets)
              else exists n | n in groups[g] :: !Loadable(t, w, rank, n) && LayerRefused(t, w, rank, n, r.error)
  {
    var layers := start;
    names, of := names0, of0;
    for k := 0 to |groups[g]|
      invariant Builds(t, w, rank, groups, targets, layers, names, of)
                && Seen(names, Flatten(groups[..g]) + groups[g][..k])
      invariant names0 <= names && of0 <= of
      invariant targets[g] != [] ==> forall i | 0 <= i < k :: Loads(names, of, groups[g][i], g)
      invariant forall i | 0 <= i < k :: Loadable(t, w, rank, groups[g][i])
    {
      var name := groups[g][k];
      var layer := BuildLayer(t, w, rank, name, targets[g]);
      if layer.Err? {
        if layer.error == MissingSlot { assert Misses(t, rank, groups, targets, g, k); }
        assert name in groups[g];
        return Err(layer.error), names, of;
      }
      FreshName(groups, g, k);
      assert groups[g][..k+1] == groups[g][..k] + [name];
      if |targets[g]| > 0 {
        ghost var before, beforeOf := names, of;
        layers, names, of := layers + [layer.value], names + [name], of + [g];
        assert names[|before|] == name && of[|before|] == g;
        forall i | 0 <= i < k ensures Loads(names, of, groups[g][i], g) {
          var x :| 0 <= x < |before| && before[x] == groups[g][i] && beforeOf[x] == g;
          assert names[x] == groups[g][i] && of[x] == g;
        }
      }
    }
    assert groups[g][..|groups[g]|] == groups[g] && groups[..g+1][..g] == groups[..g];
    r := Ok(layers);
  }

  /** Some targeted block lacks the slot of a layer that is loaded from it. */
  ghost predicate MissedSlot(t: LayerTopology, rank: nat, groups: seq<seq<string>>, targets: seq<seq<Target>>) {
    exists g: nat, k: nat :: Misses(t, rank, groups, targets, g, k)
  }

  ghost predicate Misses(t: LayerTopology, rank: nat, groups: seq<seq<string>>, targets: seq<seq<Target>>, g: nat,
                         k: nat) {
    && g < |groups| && k < |groups[g]| && g < |targets| && Shaped(t) && groups[g][k] in t.ids
    && SlotIndex(t, t.ids[groups[g][k]], rank).Ok?
    && exists j | 0 <= j < |targets[g]| :: SlotIndex(t, t.ids[groups[g][k]], rank).value >= |targets[g][j].block.slots|
  }

  method BuildLayers(t: LayerTopology, w: Worker, rank: nat, groups: seq<seq<string>>, targets: seq<seq<Target>>)
    returns (r: Result<seq<LayerTransfer>, LoadError>, ghost names: seq<string>, ghost of: seq<nat>)
    requires Numbered(t.names, t.ids) && Shaped(t) && NoRepeats(Flatten(groups)) && |targets| == |groups|
    ensures r.Ok? ==> Builds(t, w, rank, groups, targets, r.value, names, of) && Complete(groups, targets, names, of)
    ensures r.Ok? ==> forall g | 0 <= g < |groups| :: AllLoadable(t, w, rank, groups[g])
    ensures r.Err? ==> if r.error == MissingSlot then MissedSlot(t, rank, groups, targets)
                       else exists g, n | 0 <= g < |groups| && n in groups[g] ::
                              !Loadable(t, w, rank, n) && LayerRefused(t, w, rank, n, r.error)
  {
    var layers: seq<LayerTransfer> := [];
    names, of := [], [];
    for g := 0 to |groups|
      invariant Builds(t, w, rank, groups, targets, layers, names, of) && Seen(names, Flatten(groups[..g]))
      invariant forall h, k | 0 <= h < g && 0 <= k < |groups[h]| && targets[h] != [] ::
                  Loads(names, of, groups[h][k], h)
      invariant forall h | 0 <= h < g :: AllLoadable(t, w, rank, groups[h])
    {
      ghost var before, beforeOf := names, of;
      var more;
      more, names, of := BuildGroup(t, w, rank, groups, targets, g, layers, names, of);
      if more.Err? { return Err(more.error), names, of; }
      layers := more.value;
      forall h, k | 0 <= h < g && 0 <= k < |groups[h]| && targets[h] != [] ensures Loads(names, of, groups[h][k], h) {
        assert Loads(before, beforeOf, groups[h][k], h);
        var x :| 0 <= x < |before| && before[x] == groups[h][k] && beforeOf[x] == h;
        assert names[x] == groups[h][k] && of[x] == h;
      }
    }
    r := Ok(layers);
  }
}
