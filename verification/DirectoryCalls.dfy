/** Calls on the directory as uninterrupted runs of the protocol: what each leaves when no other call interferes. */
module DirectoryCalls {
  import opened Common
  import opened Directory
  import opened DirectoryProtocol

  // ------------------------------------------------------------ what a call leaves

  ghost function KeptOwners(owners: Owners, f: Filter, nodes: Nodes): Owners {
    map n | n in owners && Keeps(f, nodes, n, owners[n]) :: owners[n]
  }

  /** What a scan with filter `f` leaves, key by key. */
  ghost function Retained(blocks: Blocks, f: Filter, nodes: Nodes): Blocks {
    map k | k in blocks && KeptOwners(blocks[k], f, nodes) != map[] :: KeptOwners(blocks[k], f, nodes)
  }

  ghost function Inserted(blocks: Blocks, ns: string, hashes: seq<Hash>, n: Node, o: OwnerRecord): Blocks {
    if hashes == [] then blocks
    else
      var before := Inserted(blocks, ns, hashes[..|hashes|-1], n, o);
      var key := BlockKey(ns, hashes[|hashes|-1]);
      before[key := OwnersOf(before, key)[n := o]]
  }

  ghost function Removed(blocks: Blocks, ns: string, hashes: seq<Hash>, n: Node, id: Session): Blocks {
    if hashes == [] then blocks
    else
      var before := Removed(blocks, ns, hashes[..|hashes|-1], n, id);
      var key := BlockKey(ns, hashes[|hashes|-1]);
      if key in before then WithOwners(before, key, WithoutOwner(before[key], n, id)) else before
  }

  ghost function LiveNodes(nodes: Nodes, cfg: Config, now: nat): Nodes {
    map n | n in nodes && Age(now, nodes[n].lastSeen) <= cfg.ttl :: nodes[n]
  }

  // ------------------------------------------------------------ runs

  ghost predicate Reaches(s: State, s': State) { exists steps :: ValidRun(s, steps) && Run(s, steps) == s' }

  lemma ReachesSelf(s: State)
    ensures Reaches(s, s)
  {
    assert ValidRun(s, []) && Run(s, []) == s;
  }

  lemma FirstStep(s: State, step: Step, s': State)
    requires Enabled(s, step) && Reaches(Apply(s, step), s')
    ensures Reaches(s, s')
  {
    var steps :| ValidRun(Apply(s, step), steps) && Run(Apply(s, step), steps) == s';
    var all := [step] + steps;
    assert all[0] == step && all[1..] == steps;
    assert ValidRun(s, all) && Run(s, all) == s';
  }

  lemma {:induction false} RunOn(s: State, some: seq<Step>, more: seq<Step>)
    requires ValidRun(s, some) && ValidRun(Run(s, some), more)
    ensures ValidRun(s, some + more) && Run(s, some + more) == Run(Run(s, some), more)
    decreases |some|
  {
    if some == [] {
      assert some + more == more;
    } else {
      RunOn(Apply(s, some[0]), some[1..], more);
      assert (some + more)[0] == some[0] && (some + more)[1..] == some[1..] + more;
    }
  }

  lemma ReachesOn(a: State, b: State, c: State)
    requires Reaches(a, b) && Reaches(b, c)
    ensures Reaches(a, c)
  {
    var some :| ValidRun(a, some) && Run(a, some) == b;
    var more :| ValidRun(b, more) && Run(b, more) == c;
    RunOn(a, some, more);
  }

  /** No call is in progress, and the counters are those of the stored owners. */
  ghost predicate Resting(s: State) { Alone(s, map[]) }

  /** No call but those of `active` is in progress, and none of them holds a guard. */
  ghost predicate Alone(s: State, active: map<nat, Activity>) {
    s.active == active && s.heldNodes == {} && s.guarded == map[] && CountsOk(s)
  }

  lemma RestingBalanced(s: State)
    requires s.guarded == map[]
    ensures AccountedIn(s) == AccountedOf(s.blocks)
  {
  }

  lemma CountersUnique(c: Counters, d: Counters, acc: Accounted)
    requires CountersMatch(c, acc) && CountersMatch(d, acc)
    ensures c == d
  {
  }

  /** A resting directory is known by its maps, its flag and its clock. */
  lemma SameAtRest(s: State, s': State)
    requires Resting(s) && Resting(s') && s.cfg == s'.cfg && s.clock == s'.clock
    requires s.blocks == s'.blocks && s.nodes == s'.nodes && s.reconcile == s'.reconcile
    ensures s == s'
  {
    RestingBalanced(s);
    RestingBalanced(s');
    CountersUnique(s.counters, s'.counters, AccountedOf(s.blocks));
  }

  /** `s'` is `s` with other blocks, accounted for. */
  ghost predicate OnlyBlocks(s: State, s': State, blocks: Blocks) {
    s' == s.(blocks := blocks, counters := s'.counters, active := s'.active)
  }

  // ------------------------------------------------------------ insert and remove

  function KeysOf(ns: string, hashes: seq<Hash>): (keys: seq<BlockKey>)
    ensures |keys| == |hashes| && forall i | 0 <= i < |hashes| :: keys[i] == BlockKey(ns, hashes[i])
  {
    seq(|hashes|, i requires 0 <= i < |hashes| => BlockKey(ns, hashes[i]))
  }

  lemma OneActive(active: map<nat, Activity>, t: nat, a: Activity, b: Activity)
    requires active == map[t := a]
    ensures active[t := b] == map[t := b] && active - {t} == map[]
  {
  }

  lemma InsertStep(s: State, t: nat, node: Node, o: OwnerRecord, keys: seq<BlockKey>)
    requires Alone(s, map[t := Insert(node, o.session, o.registered, keys)]) && keys != []
    requires node in s.nodes && s.nodes[node].session == o.session
    ensures Enabled(s, InsertOne(t))
    ensures Alone(AfterInsertOne(s, t), map[t := Insert(node, o.session, o.registered, keys[1..])])
    ensures OnlyBlocks(s, AfterInsertOne(s, t), s.blocks[keys[0] := OwnersOf(s.blocks, keys[0])[node := o]])
  {
    InsertOneCounts(s, t);
    OneActive(s.active, t, s.active[t], Insert(node, o.session, o.registered, keys[1..]));
    assert OwnerRecord(o.session, o.registered) == o;
  }

  lemma RemoveStep(s: State, t: nat, node: Node, id: Session, keys: seq<BlockKey>)
    requires Alone(s, map[t := Remove(node, id, keys)]) && keys != []
    ensures Enabled(s, RemoveOne(t))
    ensures Alone(AfterRemoveOne(s, t), map[t := Remove(node, id, keys[1..])])
    ensures OnlyBlocks(s, AfterRemoveOne(s, t), RemovedKey(s.blocks, keys[0], node, id))
  {
    RemoveOneCounts(s, t);
    OneActive(s.active, t, s.active[t], Remove(node, id, keys[1..]));
  }

  ghost function RemovedKey(blocks: Blocks, key: BlockKey, node: Node, id: Session): Blocks {
    if key in blocks then WithOwners(blocks, key, WithoutOwner(blocks[key], node, id)) else blocks
  }

  /** The step that finds nothing left to do. */
  lemma CallEnds(s: State, t: nat, a: Activity)
    requires Alone(s, map[t := a])
    ensures Resting(Finished(s, t)) && OnlyBlocks(s, Finished(s, t), s.blocks)
  {
    OneActive(s.active, t, a, a);
    CountsFrame(s, Finished(s, t));
  }

  lemma InsertReaches(s: State, t: nat, s': State)
    requires Enabled(s, InsertOne(t)) && Reaches(AfterInsertOne(s, t), s')
    ensures Reaches(s, s')
  {
    FirstStep(s, InsertOne(t), s');
  }

  lemma RemoveReaches(s: State, t: nat, s': State)
    requires Enabled(s, RemoveOne(t)) && Reaches(AfterRemoveOne(s, t), s')
    ensures Reaches(s, s')
  {
    FirstStep(s, RemoveOne(t), s');
  }

  lemma InsertNext(s: State, t: nat, blocks: Blocks, ns: string, hashes: seq<Hash>, node: Node, o: OwnerRecord, i: nat)
    requires i < |hashes| && Alone(s, map[t := Insert(node, o.session, o.registered, KeysOf(ns, hashes)[i..])])
    requires node in s.nodes && s.nodes[node].session == o.session
    requires s.blocks == Inserted(blocks, ns, hashes[..i], node, o)
    ensures Enabled(s, InsertOne(t))
    ensures var after := AfterInsertOne(s, t);
            && Alone(after, map[t := Insert(node, o.session, o.registered, KeysOf(ns, hashes)[i+1..])])
            && OnlyBlocks(s, after, Inserted(blocks, ns, hashes[..i+1], node, o))
  {
    KeysNext(ns, hashes, i);
    InsertedNext(blocks, ns, hashes, node, o, i);
    InsertStep(s, t, node, o, KeysOf(ns, hashes)[i..]);
  }

  lemma KeysNext(ns: string, hashes: seq<Hash>, i: nat)
    requires i < |hashes|
    ensures var keys := KeysOf(ns, hashes)[i..];
            keys != [] && keys[0] == BlockKey(ns, hashes[i]) && keys[1..] == KeysOf(ns, hashes)[i+1..]
  {
  }

  lemma InsertedNext(blocks: Blocks, ns: string, hashes: seq<Hash>, node: Node, o: OwnerRecord, i: nat)
    requires i < |hashes|
    ensures var before, key := Inserted(blocks, ns, hashes[..i], node, o), BlockKey(ns, hashes[i]);
            Inserted(blocks, ns, hashes[..i+1], node, o) == before[key := OwnersOf(before, key)[node := o]]
  {
    assert hashes[..i+1][..i] == hashes[..i];
  }

  /** The rest of an insert call that has done the first `i` hashes. */
  lemma {:induction false} InsertRuns(s: State, t: nat, blocks: Blocks, ns: string, hashes: seq<Hash>, node: Node,
                                      o: OwnerRecord, i: nat) returns (s': State)
    requires i <= |hashes| && Alone(s, map[t := Insert(node, o.session, o.registered, KeysOf(ns, hashes)[i..])])
    requires node in s.nodes && s.nodes[node].session == o.session
    requires s.blocks == Inserted(blocks, ns, hashes[..i], node, o)
    ensures Reaches(s, s') && Resting(s') && OnlyBlocks(s, s', Inserted(blocks, ns, hashes, node, o))
    decreases |hashes| - i
  {
    var keys, after := KeysOf(ns, hashes)[i..], AfterInsertOne(s, t);
    if i == |hashes| {
      assert hashes[..i] == hashes && keys == [];
      s' := Finished(s, t);
      CallEnds(s, t, Insert(node, o.session, o.registered, keys));
      ReachesSelf(s');
    } else {
      InsertNext(s, t, blocks, ns, hashes, node, o, i);
      s' := InsertRuns(after, t, blocks, ns, hashes, node, o, i + 1);
    }
    InsertReaches(s, t, s');
  }

  lemma {:induction false} RemoveRuns(s: State, t: nat, blocks: Blocks, ns: string, hashes: seq<Hash>, node: Node,
                                      id: Session, i: nat) returns (s': State)
    requires i <= |hashes| && Alone(s, map[t := Remove(node, id, KeysOf(ns, hashes)[i..])])
    requires s.blocks == Removed(blocks, ns, hashes[..i], node, id)
    ensures Reaches(s, s') && Resting(s') && OnlyBlocks(s, s', Removed(blocks, ns, hashes, node, id))
    decreases |hashes| - i
  {
    var keys, after := KeysOf(ns, hashes)[i..], AfterRemoveOne(s, t);
    if i == |hashes| {
      assert hashes[..i] == hashes;
      s' := Finished(s, t);
      CallEnds(s, t, s.active[t]);
      ReachesSelf(s');
    } else {
      KeysNext(ns, hashes, i);
      RemoveStep(s, t, node, id, keys);
      assert hashes[..i+1][..i] == hashes[..i];
      s' := RemoveRuns(after, t, blocks, ns, hashes, node, id, i + 1);
    }
    RemoveReaches(s, t, s');
  }

  ghost function Touched(s: State, node: Node): Nodes
    requires node in s.nodes
  {
    s.nodes[node := s.nodes[node].(lastSeen := s.clock)]
  }

  /** An insert call of the current session. */
  lemma InsertCall(s: State, t: nat, ns: string, hashes: seq<Hash>, node: Node, id: Session) returns (s': State)
    requires Resting(s) && node in s.nodes && s.nodes[node].session == id
    ensures Reaches(s, s') && Resting(s')
    ensures var blocks := Inserted(s.blocks, ns, hashes, node, OwnerRecord(id, s.clock));
            s' == s.(nodes := Touched(s, node), blocks := blocks, counters := s'.counters)
  {
    var step := BeginInsert(t, node, id, KeysOf(ns, hashes));
    var after := Apply(s, step);
    CountsStep(s, step);
    assert KeysOf(ns, hashes)[0..] == KeysOf(ns, hashes) && hashes[..0] == [];
    s' := InsertRuns(after, t, s.blocks, ns, hashes, node, OwnerRecord(id, s.clock), 0);
    FirstStep(s, step, s');
  }

  /** A remove call of the current session. */
  lemma RemoveCall(s: State, t: nat, ns: string, hashes: seq<Hash>, node: Node, id: Session) returns (s': State)
    requires Resting(s) && node in s.nodes && s.nodes[node].session == id
    ensures Reaches(s, s') && Resting(s')
    ensures s' == s.(nodes := Touched(s, node), blocks := Removed(s.blocks, ns, hashes, node, id),
                     counters := s'.counters)
  {
    var step := BeginRemove(t, node, id, KeysOf(ns, hashes));
    var after := Apply(s, step);
    CountsStep(s, step);
    assert KeysOf(ns, hashes)[0..] == KeysOf(ns, hashes) && hashes[..0] == [];
    s' := RemoveRuns(after, t, s.blocks, ns, hashes, node, id, 0);
    FirstStep(s, step, s');
  }

  // ------------------------------------------------------------ scans

  lemma VisitReaches(s: State, t: nat, n: Node, s': State)
    requires t in s.active && s.active[t].ScanKey? && n in s.active[t].left && n !in s.heldNodes
    requires Reaches(AfterVisitOwner(s, t, n), s')
    ensures Reaches(s, s')
  {
    FirstStep(s, VisitOwner(t, n), s');
  }

  lemma TakeReaches(s: State, t: nat, key: BlockKey, s': State)
    requires t in s.active && s.active[t].Scan? && key !in s.guarded && Reaches(AfterTakeGuard(s, t, key), s')
    ensures Reaches(s, s')
  {
    FirstStep(s, TakeGuard(t, key), s');
  }

  lemma SweepReaches(s: State, t: nat, n: Node, s': State)
    requires t in s.active && s.active[t].SweepNodes? && n !in s.heldNodes && Reaches(AfterSweepNode(s, t, n), s')
    ensures Reaches(s, s')
  {
    FirstStep(s, SweepNode(t, n), s');
  }

  lemma DecideReaches(s: State, t: nat, s': State)
    requires t in s.active && s.active[t].SweepNodes? && s.active[t].unseen == {}
    requires Reaches(AfterSweepDecide(s, t), s')
    ensures Reaches(s, s')
  {
    FirstStep(s, SweepDecide(t), s');
  }

  /** Owners after the visits of `left`. */
  ghost function Visited(owners: Owners, left: set<Node>, f: Filter, nodes: Nodes): Owners {
    map n | n in owners && (n in left ==> Keeps(f, nodes, n, owners[n])) :: owners[n]
  }

  /** The scan holds the guard of one key only. */
  ghost predicate Holding(s: State, t: nat, f: Filter, todo: set<BlockKey>, key: BlockKey, left: set<Node>) {
    && s.active == map[t := ScanKey(f, todo, key, left)] && s.heldNodes == {} && s.guarded.Keys == {key}
    && key in s.blocks && left <= s.blocks[key].Keys && CountsOk(s)
  }

  lemma {:induction false} VisitRuns(s: State, t: nat, f: Filter, todo: set<BlockKey>, key: BlockKey, left: set<Node>)
    returns (s': State)
    requires Holding(s, t, f, todo, key, left)
    ensures Reaches(s, s') && Holding(s', t, f, todo, key, {})
    ensures s' == s.(blocks := s.blocks[key := Visited(s.blocks[key], left, f, s.nodes)], active := s'.active)
    decreases left
  {
    if left == {} {
      s' := s;
      VisitedNone(s.blocks, key, f, s.nodes);
      ReachesSelf(s);
    } else {
      var n :| n in left;
      var after := VisitOne(s, t, f, todo, key, left, n);
      s' := VisitRuns(after, t, f, todo, key, left - {n});
      VisitedMore(s.blocks, key, left, n, f, s.nodes);
      VisitReaches(s, t, n, s');
    }
  }

  lemma VisitedNone(blocks: Blocks, key: BlockKey, f: Filter, nodes: Nodes)
    requires key in blocks
    ensures blocks[key := Visited(blocks[key], {}, f, nodes)] == blocks
  {
    assert Visited(blocks[key], {}, f, nodes) == blocks[key];
  }

  lemma VisitOne(s: State, t: nat, f: Filter, todo: set<BlockKey>, key: BlockKey, left: set<Node>, n: Node)
    returns (after: State)
    requires Holding(s, t, f, todo, key, left) && n in left
    ensures after == AfterVisitOwner(s, t, n) && Holding(after, t, f, todo, key, left - {n})
    ensures after == s.(blocks := s.blocks[key := Visited(s.blocks[key], {n}, f, s.nodes)], active := after.active)
  {
    after := AfterVisitOwner(s, t, n);
    VisitCounts(s, t, n);
    OneActive(s.active, t, s.active[t], ScanKey(f, todo, key, left - {n}));
    VisitedOne(s.blocks, key, n, f, s.nodes);
  }

  lemma VisitCounts(s: State, t: nat, n: Node)
    requires t in s.active && s.active[t].ScanKey? && n in s.active[t].left && n !in s.heldNodes
    requires CountsOk(s) && GuardOk(s, t)
    ensures CountsOk(AfterVisitOwner(s, t, n))
  {
    VisitOwnerCounted(s, t, n);
    CountsFrame(s, AfterVisitOwner(s, t, n));
  }

  lemma VisitedOne(blocks: Blocks, key: BlockKey, n: Node, f: Filter, nodes: Nodes)
    requires key in blocks && n in blocks[key]
    ensures blocks[key := Visited(blocks[key], {n}, f, nodes)] ==
            if Keeps(f, nodes, n, blocks[key][n]) then blocks else blocks[key := blocks[key] - {n}]
  {
    if Keeps(f, nodes, n, blocks[key][n]) {
      assert Visited(blocks[key], {n}, f, nodes) == blocks[key];
    } else {
      assert Visited(blocks[key], {n}, f, nodes) == blocks[key] - {n};
    }
  }

  lemma VisitedMore(blocks: Blocks, key: BlockKey, left: set<Node>, n: Node, f: Filter, nodes: Nodes)
    requires key in blocks && n in left
    ensures var one := blocks[key := Visited(blocks[key], {n}, f, nodes)];
            one[key := Visited(one[key], left - {n}, f, nodes)] == blocks[key := Visited(blocks[key], left, f, nodes)]
  {
    var owners := blocks[key];
    assert Visited(Visited(owners, {n}, f, nodes), left - {n}, f, nodes) == Visited(owners, left, f, nodes);
  }

  /** What a scan of `todo` leaves. */
  ghost function ScannedKeys(blocks: Blocks, todo: set<BlockKey>, f: Filter, nodes: Nodes): Blocks {
    map k | k in blocks && (k in todo ==> KeptOwners(blocks[k], f, nodes) != map[]) ::
      if k in todo then KeptOwners(blocks[k], f, nodes) else blocks[k]
  }

  lemma ScannedOneMore(blocks: Blocks, todo: set<BlockKey>, key: BlockKey, f: Filter, nodes: Nodes)
    requires key in todo
    ensures ScannedKeys(ScannedKey(blocks, key, f, nodes), todo - {key}, f, nodes) ==
            ScannedKeys(blocks, todo, f, nodes)
  {
    var some := ScannedKeys(ScannedKey(blocks, key, f, nodes), todo - {key}, f, nodes);
    var all := ScannedKeys(blocks, todo, f, nodes);
    forall k ensures (k in some <==> k in all) && (k in some ==> some[k] == all[k]) {
      ScannedAlike(blocks, todo, key, f, nodes, k);
    }
  }

  lemma ScannedAlike(blocks: Blocks, todo: set<BlockKey>, key: BlockKey, f: Filter, nodes: Nodes, k: BlockKey)
    requires key in todo
    ensures var some := ScannedKeys(ScannedKey(blocks, key, f, nodes), todo - {key}, f, nodes);
            var all := ScannedKeys(blocks, todo, f, nodes);
            (k in some <==> k in all) && (k in some ==> some[k] == all[k])
  {
    var one := ScannedKey(blocks, key, f, nodes);
    if k == key {
      assert k in one <==> k in blocks && KeptOwners(blocks[k], f, nodes) != map[];
    } else {
      assert (k in one <==> k in blocks) && (k in one ==> one[k] == blocks[k]);
    }
  }

  /** What a scan of one key leaves. */
  ghost function ScannedKey(blocks: Blocks, key: BlockKey, f: Filter, nodes: Nodes): Blocks {
    if key in blocks then WithOwners(blocks, key, KeptOwners(blocks[key], f, nodes)) else blocks
  }

  /** One key of a scan. */
  lemma ScanOne(s: State, t: nat, f: Filter, todo: set<BlockKey>, key: BlockKey) returns (s': State)
    requires Alone(s, map[t := Scan(f, todo)]) && key in todo
    ensures Reaches(s, s') && Alone(s', map[t := Scan(f, todo - {key})])
    ensures OnlyBlocks(s, s', ScannedKey(s.blocks, key, f, s.nodes))
  {
    var after := AfterTakeGuard(s, t, key);
    TakeOne(s, t, f, todo, key);
    if key in s.blocks {
      s' := GuardedOne(after, t, f, todo - {key}, key);
      VisitedAll(s.blocks[key], f, s.nodes);
    } else {
      s' := after;
      ReachesSelf(s');
    }
    TakeReaches(s, t, key, s');
  }

  /** Taking the guard of a key, or passing over it when it is gone. */
  lemma TakeOne(s: State, t: nat, f: Filter, todo: set<BlockKey>, key: BlockKey)
    requires Alone(s, map[t := Scan(f, todo)])
    ensures var after := AfterTakeGuard(s, t, key);
            && after == s.(active := after.active, guarded := after.guarded)
            && if key in s.blocks then Holding(after, t, f, todo - {key}, key, s.blocks[key].Keys)
               else Alone(after, map[t := Scan(f, todo - {key})])
  {
    TakeGuardCounted(s, t, key);
    CountsFrame(s, AfterTakeGuard(s, t, key));
    OneActive(s.active, t, s.active[t], AfterTakeGuard(s, t, key).active[t]);
  }

  lemma VisitedAll(owners: Owners, f: Filter, nodes: Nodes)
    ensures Visited(owners, owners.Keys, f, nodes) == KeptOwners(owners, f, nodes)
  {
  }

  lemma GuardedOne(s: State, t: nat, f: Filter, todo: set<BlockKey>, key: BlockKey) returns (s': State)
    requires key in s.blocks && Holding(s, t, f, todo, key, s.blocks[key].Keys)
    ensures Reaches(s, s') && Alone(s', map[t := Scan(f, todo)])
    ensures s' == s.(blocks := WithOwners(s.blocks, key, Visited(s.blocks[key], s.blocks[key].Keys, f, s.nodes)),
                     counters := s'.counters, active := s'.active, guarded := map[])
  {
    var mid := VisitRuns(s, t, f, todo, key, s.blocks[key].Keys);
    s' := DropOne(mid, t, f, todo, key);
    PutBack(s.blocks, key, mid.blocks[key]);
    ReachesOn(s, mid, s');
  }

  lemma PutBack(blocks: Blocks, key: BlockKey, owners: Owners)
    ensures WithOwners(blocks[key := owners], key, owners) == WithOwners(blocks, key, owners)
  {
  }

  lemma DropOne(s: State, t: nat, f: Filter, todo: set<BlockKey>, key: BlockKey) returns (s': State)
    requires Holding(s, t, f, todo, key, {})
    ensures Reaches(s, s') && Alone(s', map[t := Scan(f, todo)])
    ensures s' == s.(blocks := WithOwners(s.blocks, key, s.blocks[key]), counters := s'.counters, active := s'.active,
                     guarded := map[])
  {
    s' := AfterDropGuard(s, t);
    DropGuardCounts(s, t);
    OneActive(s.active, t, s.active[t], Scan(f, todo));
    assert s.guarded - {key} == map[];
    ReachesSelf(s');
    FirstStep(s, DropGuard(t), s');
  }

  lemma {:induction false} ScanRuns(s: State, t: nat, f: Filter, todo: set<BlockKey>) returns (s': State)
    requires Alone(s, map[t := Scan(f, todo)])
    ensures Reaches(s, s') && Resting(s') && OnlyBlocks(s, s', ScannedKeys(s.blocks, todo, f, s.nodes))
    decreases todo
  {
    if todo == {} {
      s' := Finished(s, t);
      CountsStep(s, EndScan(t));
      ReachesSelf(s');
      FirstStep(s, EndScan(t), s');
      assert ScannedKeys(s.blocks, todo, f, s.nodes) == s.blocks;
    } else {
      var key :| key in todo;
      var mid := ScanOne(s, t, f, todo, key);
      s' := ScanRuns(mid, t, f, todo - {key});
      ScannedOneMore(s.blocks, todo, key, f, s.nodes);
      ReachesOn(s, mid, s');
    }
  }

  lemma WholeScan(blocks: Blocks, f: Filter, nodes: Nodes)
    ensures ScannedKeys(blocks, blocks.Keys, f, nodes) == Retained(blocks, f, nodes)
  {
  }

  // ------------------------------------------------------------ the other calls

  ghost predicate TakesOver(s: State, node: Node, id: Session) {
    node in s.nodes && s.nodes[node].session != id && Age(s.clock, s.nodes[node].lastSeen) > s.cfg.staleAfter
  }

  /** A heartbeat: one step, or two when a session takes over. */
  lemma HeartbeatCall(s: State, t: nat, node: Node, id: Session) returns (s': State)
    requires Resting(s)
    ensures Reaches(s, s') && Resting(s')
    ensures s' == if TakesOver(s, node, id)
                  then s.(nodes := s.nodes[node := NodeRecord(id, s.clock, Some(s.clock))], reconcile := true)
                  else AfterHeartbeat(s, t, node, id, s.clock)
  {
    var step := Heartbeat(t, node, id, s.clock);
    var after := Apply(s, step);
    CountsStep(s, step);
    if TakesOver(s, node, id) {
      CountsStep(after, TakeoverWrite(t));
      s' := Apply(after, TakeoverWrite(t));
      assert s'.active == map[] && s'.heldNodes == {};
      ReachesSelf(s');
      FirstStep(after, TakeoverWrite(t), s');
    } else {
      s' := after;
      ReachesSelf(s');
    }
    FirstStep(s, step, s');
  }

  /** Unregistering the current session of a node. */
  lemma UnregisterCall(s: State, t: nat, node: Node, id: Session) returns (s': State)
    requires Resting(s) && node in s.nodes && s.nodes[node].session == id
    ensures Reaches(s, s') && Resting(s')
    ensures s' == s.(nodes := s.nodes - {node}, counters := s'.counters,
                     blocks := Retained(s.blocks, LiveSessionsOf(node), s.nodes - {node}))
  {
    var step := Unregister(t, node, id);
    var after := Apply(s, step);
    CountsStep(s, step);
    s' := ScanRuns(after, t, LiveSessionsOf(node), s.blocks.Keys);
    WholeScan(s.blocks, LiveSessionsOf(node), s.nodes - {node});
    FirstStep(s, step, s');
  }

  /** Nodes that outlive a visit of `unseen`. */
  ghost function Outlive(nodes: Nodes, unseen: set<Node>, cfg: Config, now: nat): Nodes {
    map n | n in nodes && (n in unseen ==> Age(now, nodes[n].lastSeen) <= cfg.ttl) :: nodes[n]
  }

  lemma {:induction false} SweepNodesRun(s: State, t: nat, reconcile: bool, removed: nat, unseen: set<Node>)
    returns (s': State, total: nat)
    requires Alone(s, map[t := SweepNodes(reconcile, s.clock, removed, unseen)])
    ensures Reaches(s, s') && Alone(s', map[t := SweepNodes(reconcile, s.clock, total, {})])
    ensures s' == s.(nodes := Outlive(s.nodes, unseen, s.cfg, s.clock), active := s'.active)
    ensures total == 0 <==> removed == 0 && s'.nodes == s.nodes
    decreases unseen
  {
    if unseen == {} {
      s', total := s, removed;
      assert Outlive(s.nodes, unseen, s.cfg, s.clock) == s.nodes;
      ReachesSelf(s);
    } else {
      var n :| n in unseen;
      var after := AfterSweepNode(s, t, n);
      var more := SweepOne(s, t, reconcile, removed, unseen, n);
      s', total := SweepNodesRun(after, t, reconcile, more, unseen - {n});
      OutliveMore(s.nodes, unseen, n, s.cfg, s.clock);
      SweepReaches(s, t, n, s');
    }
  }

  lemma SweepOne(s: State, t: nat, reconcile: bool, removed: nat, unseen: set<Node>, n: Node) returns (more: nat)
    requires Alone(s, map[t := SweepNodes(reconcile, s.clock, removed, unseen)]) && n in unseen
    ensures var after := AfterSweepNode(s, t, n);
            && Alone(after, map[t := SweepNodes(reconcile, s.clock, more, unseen - {n})])
            && after == s.(nodes := Outlive(s.nodes, {n}, s.cfg, s.clock), active := after.active)
            && (more == 0 <==> removed == 0 && after.nodes == s.nodes)
  {
    var after := AfterSweepNode(s, t, n);
    more := after.active[t].removed;
    CountsFrame(s, after);
    OneActive(s.active, t, s.active[t], after.active[t]);
    OutliveOne(s.nodes, n, s.cfg, s.clock);
  }

  lemma OutliveOne(nodes: Nodes, n: Node, cfg: Config, now: nat)
    ensures Outlive(nodes, {n}, cfg, now) ==
            if n in nodes && Age(now, nodes[n].lastSeen) > cfg.ttl then nodes - {n} else nodes
  {
  }

  lemma OutliveMore(nodes: Nodes, unseen: set<Node>, n: Node, cfg: Config, now: nat)
    requires n in unseen
    ensures Outlive(Outlive(nodes, {n}, cfg, now), unseen - {n}, cfg, now) == Outlive(nodes, unseen, cfg, now)
    ensures Outlive(nodes, unseen, cfg, now) == nodes ==> Outlive(nodes, {n}, cfg, now) == nodes
  {
    if Outlive(nodes, unseen, cfg, now) == nodes {
      assert forall m | m in nodes :: m in Outlive(nodes, unseen, cfg, now);
    }
  }

  /** A sweep: clear the flag, expire nodes, and scan if there is a reason to. */
  lemma SweepCall(s: State, t: nat) returns (s': State)
    requires Resting(s)
    ensures Reaches(s, s') && Resting(s')
    ensures var nodes := LiveNodes(s.nodes, s.cfg, s.clock);
            s' == s.(nodes := nodes, reconcile := false, counters := s'.counters,
                     blocks := if nodes == s.nodes && !s.reconcile then s.blocks
                               else Retained(s.blocks, LiveSessions, nodes))
  {
    var after := AfterSweepSwap(s, t);
    CountsStep(s, SweepSwap(t));
    var swept, total := SweepNodesRun(after, t, s.reconcile, 0, s.nodes.Keys);
    assert Outlive(s.nodes, s.nodes.Keys, s.cfg, s.clock) == LiveNodes(s.nodes, s.cfg, s.clock);
    s' := Decided(swept, t, s.reconcile, total);
    ReachesOn(after, swept, s');
    FirstStep(s, SweepSwap(t), s');
  }

  lemma Decided(s: State, t: nat, reconcile: bool, total: nat) returns (s': State)
    requires Alone(s, map[t := SweepNodes(reconcile, s.clock, total, {})])
    ensures Reaches(s, s') && Resting(s')
    ensures OnlyBlocks(s, s', if total == 0 && !reconcile then s.blocks else Retained(s.blocks, LiveSessions, s.nodes))
  {
    var after := AfterSweepDecide(s, t);
    if total == 0 && !reconcile {
      s' := after;
      CallEnds(s, t, s.active[t]);
      ReachesSelf(s');
    } else {
      OneActive(s.active, t, s.active[t], Scan(LiveSessions, s.blocks.Keys));
      CountsFrame(s, after);
      s' := ScanRuns(after, t, LiveSessions, s.blocks.Keys);
      WholeScan(s.blocks, LiveSessions, s.nodes);
    }
    DecideReaches(s, t, s');
  }
}
