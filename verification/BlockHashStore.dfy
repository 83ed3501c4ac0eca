/** The directory as one object: each call run to completion, and what its callers see. */
module BlockHashStoreModule {
  import opened Common
  import opened Directory
  import opened DirectoryProtocol
  import opened DirectoryCalls

  datatype PrefixEntry = PrefixEntry(hash: Hash, nodes: seq<Node>)

  datatype SweepStats = SweepStats(removedOwners: nat, removedKeys: nat, removedNodes: nat)

  ghost function VisibleOwners(blocks: Blocks, nodes: Nodes, cfg: Config, key: BlockKey, now: nat): set<Node> {
    set n | n in OwnersOf(blocks, key) && Visible(nodes, cfg, n, OwnersOf(blocks, key)[n], now)
  }

  ghost predicate Stored(blocks: Blocks, key: BlockKey, n: Node) { key in blocks && n in blocks[key] }

  ghost function RecordAt(blocks: Blocks, key: BlockKey, n: Node): Option<OwnerRecord> {
    if Stored(blocks, key, n) then Some(blocks[key][n]) else None
  }

  /** Node `n` holds the block for its current session and was heard of in the last `cfg.staleAfter`. */
  ghost predicate Answers(blocks: Blocks, nodes: Nodes, cfg: Config, key: BlockKey, n: Node, now: nat) {
    && Stored(blocks, key, n) && n in nodes && nodes[n].session == blocks[key][n].session
    && now <= nodes[n].lastSeen + cfg.staleAfter
  }

  /** With the caller's record under the key, enough nodes answer for it, and the session did not own it before. */
  ghost predicate WorthHint(blocks: Blocks, nodes: Nodes, cfg: Config, key: BlockKey, n: Node, o: OwnerRecord) {
    var after := blocks[key := (if key in blocks then blocks[key] else map[])[n := o]];
    && !(Stored(blocks, key, n) && blocks[key][n].session == o.session)
    && cfg.minReclaimable <= |set x | x in after[key] && Answers(after, nodes, cfg, key, x, o.registered)|
  }

  /** A new owner of a block that enough live nodes hold already makes the block worth a reclaim hint. */
  ghost predicate Reclaimable(blocks: Blocks, nodes: Nodes, cfg: Config, key: BlockKey, n: Node, o: OwnerRecord) {
    var previous := OwnersOf(blocks, key);
    && (n in previous ==> previous[n].session != o.session)
    && |VisibleOwners(blocks[key := previous[n := o]], nodes, cfg, key, o.registered)| >= cfg.minReclaimable
  }

  class BlockHashStore {
    const cfg: Config
    var blocks: Blocks
    var nodes: Nodes
    var reconcile: bool
    var counters: Counters

    ghost predicate Valid()
      reads this
    {
      Balanced(counters, AccountedOf(blocks))
    }

    /** The directory at time `now` as a state of the protocol, with no call in progress. */
    ghost function At(now: nat): State
      reads this
    {
      State(cfg, now, blocks, nodes, reconcile, counters, {}, map[], map[])
    }

    constructor (cfg: Config)
      ensures Valid() && blocks == map[] && nodes == map[] && !reconcile && this.cfg == cfg
    {
      this.cfg := cfg;
      blocks, nodes, reconcile := map[], map[], false;
      counters := Counters(0, 0, 0, 0, 0, false);
      new;
      var acc := AccountedOf(blocks);
      assert forall b | 1 <= b <= 4 :: KeysInBucket(acc, b) == {};
      assert Copies(acc) == {};
    }

    method HeartbeatNode(node: Node, id: Session, now: nat) returns (r: Result<(), StoreError>)
      requires Valid()
      modifies this`nodes, this`reconcile
      ensures Valid() && Reaches(old(At(now)), At(now))
      ensures r.Err? <==> node in old(nodes) && old(nodes)[node].session != id
                          && now <= old(nodes)[node].lastSeen + cfg.staleAfter
      ensures r.Err? ==> r.error == StaleSession && nodes == old(nodes) && reconcile == old(reconcile)
      ensures r.Ok? ==>
                && node in nodes && nodes == old(nodes)[node := nodes[node]]
                && nodes[node].session == id && nodes[node].lastSeen == now
                && (if node in old(nodes) && old(nodes)[node].session == id
                    then nodes[node].idleSince == old(nodes)[node].idleSince
                    else nodes[node].idleSince == Some(now))
                && reconcile == (old(reconcile) || (node in old(nodes) && old(nodes)[node].session != id))
    {
      HeartbeatRuns(At(now), node, id);
      if node !in nodes {
        nodes := nodes[node := NodeRecord(id, now, Some(now))];
        return Ok(());
      }
      var record := nodes[node];
      var sameSession := record.session == id;
      var staleSession := Age(now, record.lastSeen) > cfg.staleAfter;
      if sameSession || staleSession {
        if staleSession && !sameSession {
          reconcile := true;
        }
        if !sameSession {
          record := record.(idleSince := Some(now));
        }
        nodes := nodes[node := record.(session := id, lastSeen := now)];
        return Ok(());
      }
      return Err(StaleSession);
    }

    method TouchNodeSession(node: Node, id: Session, now: nat) returns (r: Result<(), StoreError>)
      modifies this`nodes
      ensures node !in old(nodes) ==> r == Err(UnknownNode)
      ensures node in old(nodes) && old(nodes)[node].session != id ==> r == Err(StaleSession)
      ensures node in old(nodes) && old(nodes)[node].session == id ==>
                r.Ok? && nodes == old(nodes)[node := old(nodes)[node].(lastSeen := now)]
      ensures r.Err? ==> nodes == old(nodes)
    {
      if node !in nodes {
        return Err(UnknownNode);
      }
      if nodes[node].session != id {
        return Err(StaleSession);
      }
      nodes := nodes[node := nodes[node].(lastSeen := now)];
      return Ok(());
    }

    method CountVisible(key: BlockKey, now: nat) returns (n: nat)
      requires key in blocks
      ensures n == |VisibleOwners(blocks, nodes, cfg, key, now)|
      ensures n == |set x | x in blocks[key] && Answers(blocks, nodes, cfg, key, x, now)|
    {
      VisibleAnswers(blocks, nodes, cfg, key, now);
      var left, found := blocks[key].Keys, {};
      while left != {}
        invariant left <= blocks[key].Keys
        invariant found == set x | x in blocks[key].Keys - left && Visible(nodes, cfg, x, blocks[key][x], now)
        decreases left
      {
        var x :| x in left;
        left := left - {x};
        if Visible(nodes, cfg, x, blocks[key][x], now) {
          found := found + {x};
        }
      }
      n := |found|;
      assert found == VisibleOwners(blocks, nodes, cfg, key, now);
    }

    method InsertHashes(ns: string, hashes: seq<Hash>, node: Node, id: Session, now: nat)
      returns (r: Result<seq<Hash>, StoreError>)
      requires Valid()
      modifies this`nodes, this`blocks, this`counters
      ensures Valid() && Reaches(old(At(now)), At(now))
      ensures r.Ok? <==> node in old(nodes) && old(nodes)[node].session == id
      ensures r.Err? ==> r.error == if node in old(nodes) then StaleSession else UnknownNode
      ensures r.Err? ==> blocks == old(blocks) && nodes == old(nodes)
      ensures r.Ok? ==>
                && nodes == old(nodes)[node := old(nodes)[node].(lastSeen := now)]
                && blocks == Inserted(old(blocks), ns, hashes, node, OwnerRecord(id, now))
                && r.value == Hints(old(blocks), nodes, cfg, ns, hashes, node, OwnerRecord(id, now))
      ensures r.Ok? ==> forall key, n ::
                RecordAt(blocks, key, n) ==
                  if n == node && key.ns == ns && key.hash in hashes then Some(OwnerRecord(id, now))
                  else RecordAt(old(blocks), key, n)
      ensures r.Ok? ==> forall h :: h in r.value <==>
                h in hashes && WorthHint(old(blocks), nodes, cfg, BlockKey(ns, h), node, OwnerRecord(id, now))
    {
      var touched := TouchNodeSession(node, id, now);
      if touched.Err? {
        ReachesSelf(At(now));
        return Err(touched.error);
      }
      ghost var blocks0 := blocks;
      var o := OwnerRecord(id, now);
      var hints: seq<Hash> := [];
      for i := 0 to |hashes|
        invariant Valid()
        invariant nodes == old(nodes)[node := old(nodes)[node].(lastSeen := now)]
        invariant blocks == Inserted(blocks0, ns, hashes[..i], node, o)
        invariant hints == Hints(blocks0, nodes, cfg, ns, hashes[..i], node, o)
      {
        assert hashes[..i+1][..i] == hashes[..i];
        var hint := InsertOwner(BlockKey(ns, hashes[i]), node, o);
        if hint {
          hints := hints + [hashes[i]];
        }
      }
      assert hashes[..|hashes|] == hashes;
      InsertRun(old(At(now)), At(now), ns, hashes, node, id);
      InsertedPointwise(old(blocks), ns, hashes, node, o);
      HintsExactly(old(blocks), nodes, cfg, ns, hashes, node, o);
      return Ok(hints);
    }

    /** The guarded section of one insert, and whether the block became worth a reclaim hint. */
    method InsertOwner(key: BlockKey, node: Node, o: OwnerRecord) returns (hint: bool)
      requires Valid()
      modifies this`blocks, this`counters
      ensures Valid() && blocks == old(blocks)[key := OwnersOf(old(blocks), key)[node := o]]
      ensures hint <==> Reclaimable(old(blocks), nodes, cfg, key, node, o)
    {
      var owners := OwnersOf(blocks, key);
      var owners' := owners[node := o];
      AddOwner(key, node, o);
      VisibleAtMost(blocks, nodes, cfg, key, o.registered);
      hint := false;
      if (node !in owners || owners[node].session != o.session) && |owners'| >= cfg.minReclaimable {
        var visible := CountVisible(key, o.registered);
        hint := visible >= cfg.minReclaimable;
      }
    }

    method AddOwner(key: BlockKey, node: Node, o: OwnerRecord)
      requires Valid()
      modifies this`blocks, this`counters
      ensures Valid() && blocks == old(blocks)[key := OwnersOf(old(blocks), key)[node := o]]
    {
      var owners := OwnersOf(blocks, key);
      var owners' := owners[node := o];
      assert node in owners';
      PutBalanced(counters, blocks, key, owners');
      counters := Adjust(counters, |owners|, |owners'|);
      blocks := blocks[key := owners'];
    }

    /** The end of a guarded section on an occupied key: account for its new owners, drop it if none is left. */
    method PutOwners(key: BlockKey, owners: Owners)
      requires Valid() && key in blocks
      modifies this`blocks, this`counters
      ensures Valid() && blocks == WithOwners(old(blocks), key, owners)
      ensures counters.copies == old(counters.copies) - |old(blocks)[key]| + |owners|
      ensures |blocks| == |old(blocks)| - if owners == map[] then 1 else 0
    {
      PutBalanced(counters, blocks, key, owners);
      PutSize(blocks, key, owners);
      AdjustCopies(counters, |blocks[key]|, |owners|);
      counters := Adjust(counters, |blocks[key]|, |owners|);
      blocks := WithOwners(blocks, key, owners);
    }

    method RemoveHashes(ns: string, hashes: seq<Hash>, node: Node, id: Session, now: nat)
      returns (r: Result<nat, StoreError>)
      requires Valid()
      modifies this`nodes, this`blocks, this`counters
      ensures Valid() && Reaches(old(At(now)), At(now))
      ensures r.Ok? <==> node in old(nodes) && old(nodes)[node].session == id
      ensures r.Err? ==> r.error == if node in old(nodes) then StaleSession else UnknownNode
      ensures r.Err? ==> blocks == old(blocks) && nodes == old(nodes)
      ensures r.Ok? ==>
                && nodes == old(nodes)[node := old(nodes)[node].(lastSeen := now)]
                && blocks == Removed(old(blocks), ns, hashes, node, id)
                && r.value == old(counters.copies) - counters.copies
      ensures r.Ok? ==> forall key, n ::
                RecordAt(blocks, key, n) ==
                  if n == node && key.ns == ns && key.hash in hashes && Stored(old(blocks), key, n)
                     && old(blocks)[key][n].session == id then None
                  else RecordAt(old(blocks), key, n)
    {
      var touched := TouchNodeSession(node, id, now);
      if touched.Err? {
        ReachesSelf(At(now));
        return Err(touched.error);
      }
      var removed := 0;
      for i := 0 to |hashes|
        invariant Valid()
        invariant nodes == old(nodes)[node := old(nodes)[node].(lastSeen := now)]
        invariant blocks == Removed(old(blocks), ns, hashes[..i], node, id)
        invariant removed == old(counters.copies) - counters.copies
      {
        assert hashes[..i+1][..i] == hashes[..i];
        var key := BlockKey(ns, hashes[i]);
        if key in blocks {
          var owners := blocks[key];
          var owners' := owners;
          if node in owners && owners[node].session == id {
            owners' := owners - {node};
            removed := removed + 1;
            RemovedOne(owners, node);
          }
          PutOwners(key, owners');
        }
      }
      assert hashes[..|hashes|] == hashes;
      RemoveRun(old(At(now)), At(now), ns, hashes, node, id);
      NoKeyEmpty(old(counters), old(blocks));
      RemovedPointwise(old(blocks), ns, hashes, node, id);
      return Ok(removed);
    }

    /** Drop every owner record `f` does not keep, block by block. */
    method RetainOwners(f: Filter) returns (stats: SweepStats)
      requires Valid()
      modifies this`blocks, this`counters
      ensures Valid()
      ensures blocks == Retained(old(blocks), f, nodes)
      ensures stats.removedOwners == old(counters.copies) - counters.copies
      ensures stats.removedKeys == |old(blocks)| - |blocks|
      ensures stats.removedNodes == 0
    {
      var left := blocks.Keys;
      var removedOwners: nat, removedKeys: nat := 0, 0;
      while left != {}
        invariant Valid()
        invariant left <= old(blocks).Keys
        invariant Scanned(old(blocks), blocks, left, f, nodes)
        invariant removedOwners == old(counters.copies) - counters.copies
        invariant removedKeys == |old(blocks)| - |blocks|
        decreases left
      {
        var key :| key in left;
        ScannedNext(old(blocks), blocks, left, key, f, nodes);
        left := left - {key};
        var owners, keys := RetainKey(key, f);
        removedOwners := removedOwners + owners;
        removedKeys := removedKeys + keys;
      }
      ScannedIsRetained(old(blocks), blocks, f, nodes);
      stats := SweepStats(removedOwners, removedKeys, 0);
    }

    /** One key of the scan: how many owners and keys are gone. */
    method RetainKey(key: BlockKey, f: Filter) returns (owners: nat, keys: nat)
      requires Valid() && key in blocks
      modifies this`blocks, this`counters
      ensures Valid() && blocks == WithOwners(old(blocks), key, KeptOwners(old(blocks)[key], f, nodes))
      ensures owners == old(counters.copies) - counters.copies && keys == |old(blocks)| - |blocks|
    {
      var kept := KeepOwners(blocks[key], f);
      owners, keys := |blocks[key]| - |kept|, if kept == map[] then 1 else 0;
      PutOwners(key, kept);
    }

    method KeepOwners(owners: Owners, f: Filter) returns (kept: Owners)
      ensures kept == KeptOwners(owners, f, nodes)
      ensures |kept| <= |owners|
    {
      var left := owners.Keys;
      kept := map[];
      while left != {}
        invariant left <= owners.Keys
        invariant kept == map n | n in owners && n !in left && Keeps(f, nodes, n, owners[n]) :: owners[n]
        decreases left
      {
        var n :| n in left;
        left := left - {n};
        if Keeps(f, nodes, n, owners[n]) {
          kept := kept[n := owners[n]];
        }
      }
      assert |kept| == |kept.Keys| && |owners| == |owners.Keys|;
      SubsetSize(kept.Keys, owners.Keys);
    }

    /** The clock plays no part: the call is a run at whatever time `now` it is made. */
    method UnregisterNode(node: Node, id: Session, ghost now: nat) returns (r: Result<nat, StoreError>)
      requires Valid()
      modifies this`nodes, this`blocks, this`counters
      ensures Valid() && Reaches(old(At(now)), At(now))
      ensures node !in old(nodes) ==> r == Err(UnknownNode)
      ensures node in old(nodes) && old(nodes)[node].session != id ==> r == Err(StaleSession)
      ensures r.Err? ==> blocks == old(blocks) && nodes == old(nodes)
      ensures r.Ok? ==>
                && nodes == old(nodes) - {node}
                && blocks == Retained(old(blocks), LiveSessionsOf(node), nodes)
                && r.value == old(counters.copies) - counters.copies
      ensures r.Ok? ==> forall key, n ::
                RecordAt(blocks, key, n) == if n == node then None else RecordAt(old(blocks), key, n)
    {
      ReachesSelf(At(now));
      if node !in nodes {
        return Err(UnknownNode);
      }
      if nodes[node].session != id {
        return Err(StaleSession);
      }
      nodes := nodes - {node};
      var stats := RetainOwners(LiveSessionsOf(node));
      UnregisterRun(old(At(now)), At(now), node, id);
      UnregisteredPointwise(old(blocks), nodes, node);
      return Ok(stats.removedOwners);
    }

    method ExpireNodes(now: nat) returns (removed: nat)
      modifies this`nodes
      ensures nodes == LiveNodes(old(nodes), cfg, now)
      ensures forall n :: n in nodes <==> n in old(nodes) && now <= old(nodes)[n].lastSeen + cfg.ttl
      ensures forall n | n in nodes :: nodes[n] == old(nodes)[n]
      ensures removed == |old(nodes)| - |nodes|
    {
      var left := nodes.Keys;
      removed := 0;
      while left != {}
        invariant left <= old(nodes).Keys
        invariant nodes ==
                  map n | n in old(nodes) && (n in left || Age(now, old(nodes)[n].lastSeen) <= cfg.ttl) :: old(nodes)[n]
        invariant removed == |old(nodes)| - |nodes|
        decreases left
      {
        var n :| n in left;
        left := left - {n};
        if Age(now, nodes[n].lastSeen) > cfg.ttl {
          removed := removed + 1;
          assert nodes == (nodes - {n})[n := nodes[n]];
          nodes := nodes - {n};
        }
      }
    }

    method SweepExpired(now: nat) returns (stats: SweepStats)
      requires Valid()
      modifies this`nodes, this`blocks, this`counters, this`reconcile
      ensures Valid() && !reconcile && Reaches(old(At(now)), At(now))
      ensures nodes == LiveNodes(old(nodes), cfg, now)
      ensures blocks == if nodes == old(nodes) && !old(reconcile) then old(blocks)
                        else Retained(old(blocks), LiveSessions, nodes)
      ensures forall n :: n in nodes <==> n in old(nodes) && now <= old(nodes)[n].lastSeen + cfg.ttl
      ensures forall n | n in nodes :: nodes[n] == old(nodes)[n]
      ensures forall key, n ::
                RecordAt(blocks, key, n) ==
                  if (nodes != old(nodes) || old(reconcile)) && Stored(old(blocks), key, n)
                     && !(n in nodes && nodes[n].session == old(blocks)[key][n].session) then None
                  else RecordAt(old(blocks), key, n)
      ensures stats.removedOwners == old(counters.copies) - counters.copies
      ensures stats.removedKeys == |old(blocks)| - |blocks|
      ensures stats.removedNodes == |old(nodes)| - |nodes|
    {
      var pending := reconcile;
      reconcile := false;
      var removedNodes := ExpireNodes(now);
      SameSizeSubmap(nodes, old(nodes));
      if removedNodes == 0 && !pending {
        SweepRun(old(At(now)), At(now));
        return SweepStats(0, 0, 0);
      }
      stats := RetainOwners(LiveSessions);
      SweepRun(old(At(now)), At(now));
      RetainedPointwise(old(blocks), LiveSessions, nodes);
      stats := stats.(removedNodes := removedNodes);
    }

    /** The longest prefix of `hashes` with a live owner, each with its live owners in some order. */
    method QueryPrefix(ns: string, hashes: seq<Hash>, now: nat) returns (entries: seq<PrefixEntry>)
      ensures |entries| <= |hashes|
      ensures forall i | 0 <= i < |entries| ::
                && entries[i].hash == hashes[i]
                && NodeSet(entries[i].nodes) == VisibleOwners(blocks, nodes, cfg, BlockKey(ns, hashes[i]), now)
                && entries[i].nodes != []
                && |entries[i].nodes| == |NodeSet(entries[i].nodes)|
      ensures |entries| < |hashes| ==>
                VisibleOwners(blocks, nodes, cfg, BlockKey(ns, hashes[|entries|]), now) == {}
      ensures forall i, n | 0 <= i < |entries| ::
                n in entries[i].nodes <==> Answers(blocks, nodes, cfg, BlockKey(ns, hashes[i]), n, now)
      ensures |entries| < |hashes| ==>
                forall n :: !Answers(blocks, nodes, cfg, BlockKey(ns, hashes[|entries|]), n, now)
    {
      AllVisibleAnswer(blocks, nodes, cfg, now);
      entries := [];
      for i := 0 to |hashes|
        invariant |entries| == i
        invariant forall j | 0 <= j < i ::
                    && entries[j].hash == hashes[j]
                    && NodeSet(entries[j].nodes) == VisibleOwners(blocks, nodes, cfg, BlockKey(ns, hashes[j]), now)
                    && entries[j].nodes != []
                    && |entries[j].nodes| == |NodeSet(entries[j].nodes)|
      {
        var key := BlockKey(ns, hashes[i]);
        if key !in blocks {
          return;
        }
        var live := LiveOwners(key, now);
        if live == [] {
          return;
        }
        entries := entries + [PrefixEntry(hashes[i], live)];
      }
    }

    method LiveOwners(key: BlockKey, now: nat) returns (live: seq<Node>)
      requires key in blocks
      ensures NodeSet(live) == VisibleOwners(blocks, nodes, cfg, key, now)
      ensures |live| == |NodeSet(live)|
      ensures forall n :: n in live <==> Answers(blocks, nodes, cfg, key, n, now)
    {
      VisibleAnswers(blocks, nodes, cfg, key, now);
      var left := blocks[key].Keys;
      live := [];
      while left != {}
        invariant left <= blocks[key].Keys
        invariant NodeSet(live) == set x | x in blocks[key].Keys - left && Visible(nodes, cfg, x, blocks[key][x], now)
        invariant |live| == |NodeSet(live)|
        decreases left
      {
        var x :| x in left;
        if Visible(nodes, cfg, x, blocks[key][x], now) {
          assert NodeSet(live + [x]) == NodeSet(live) + {x};
          live := live + [x];
        }
        left := left - {x};
      }
    }
  }

  // ------------------------------------------------------------ calls as runs of the protocol

  ghost predicate Balances(s: State) {
    s.active == map[] && s.heldNodes == {} && s.guarded == map[] && Balanced(s.counters, AccountedOf(s.blocks))
  }

  lemma Rests(s: State)
    requires Balances(s)
    ensures Resting(s)
  {
    RestingBalanced(s);
  }

  /** Two resting directories that agree on everything but the counters are the same. */
  lemma Arrives(s: State, run: State, s': State)
    requires Reaches(s, run) && Resting(run) && Balances(s') && run == s'.(counters := run.counters)
    ensures Reaches(s, s')
  {
    Rests(s');
    SameAtRest(run, s');
  }

  lemma HeartbeatRuns(s: State, node: Node, id: Session)
    requires Balances(s)
    ensures Reaches(s, if TakesOver(s, node, id)
                       then s.(nodes := s.nodes[node := NodeRecord(id, s.clock, Some(s.clock))], reconcile := true)
                       else AfterHeartbeat(s, 0, node, id, s.clock))
  {
    Rests(s);
    var run := HeartbeatCall(s, 0, node, id);
  }

  lemma InsertRun(s: State, s': State, ns: string, hashes: seq<Hash>, node: Node, id: Session)
    requires Balances(s) && Balances(s') && node in s.nodes && s.nodes[node].session == id
    requires var blocks := Inserted(s.blocks, ns, hashes, node, OwnerRecord(id, s.clock));
             s' == s.(nodes := Touched(s, node), blocks := blocks, counters := s'.counters)
    ensures Reaches(s, s')
  {
    Rests(s);
    var run := InsertCall(s, 0, ns, hashes, node, id);
    Arrives(s, run, s');
  }

  lemma RemoveRun(s: State, s': State, ns: string, hashes: seq<Hash>, node: Node, id: Session)
    requires Balances(s) && Balances(s') && node in s.nodes && s.nodes[node].session == id
    requires var blocks := Removed(s.blocks, ns, hashes, node, id);
             s' == s.(nodes := Touched(s, node), blocks := blocks, counters := s'.counters)
    ensures Reaches(s, s')
  {
    Rests(s);
    var run := RemoveCall(s, 0, ns, hashes, node, id);
    Arrives(s, run, s');
  }

  lemma UnregisterRun(s: State, s': State, node: Node, id: Session)
    requires Balances(s) && Balances(s') && node in s.nodes && s.nodes[node].session == id
    requires var blocks := Retained(s.blocks, LiveSessionsOf(node), s.nodes - {node});
             s' == s.(nodes := s.nodes - {node}, blocks := blocks, counters := s'.counters)
    ensures Reaches(s, s')
  {
    Rests(s);
    var run := UnregisterCall(s, 0, node, id);
    Arrives(s, run, s');
  }

  lemma SweepRun(s: State, s': State)
    requires Balances(s) && Balances(s')
    requires var nodes := LiveNodes(s.nodes, s.cfg, s.clock);
             var blocks := if nodes == s.nodes && !s.reconcile then s.blocks
                           else Retained(s.blocks, LiveSessions, nodes);
             s' == s.(nodes := nodes, reconcile := false, blocks := blocks, counters := s'.counters)
    ensures Reaches(s, s')
  {
    Rests(s);
    var run := SweepCall(s, 0);
    Arrives(s, run, s');
  }

  ghost predicate AllCurrent(s: State) {
    forall k, n | k in s.blocks && n in s.blocks[k] :: Current(s.nodes, n, s.blocks[k][n])
  }

  /** Between calls the flag is up or every stored owner is a current session: no call breaks that. */
  lemma CallKeepsCurrent(s: State, s': State)
    requires Balances(s) && Balances(s') && Reaches(s, s') && (s.reconcile || AllCurrent(s))
    ensures s'.reconcile || AllCurrent(s')
  {
    Rests(s);
    var steps :| ValidRun(s, steps) && Run(s, steps) == s';
    InvRun(s, steps);
  }

  ghost function NodeSet(ns: seq<Node>): set<Node> { set n | n in ns }

  /** A scan in progress: the keys in `left` are still as they were, the others are done. */
  ghost predicate Scanned(was: Blocks, blocks: Blocks, left: set<BlockKey>, f: Filter, nodes: Nodes) {
    && blocks.Keys <= was.Keys
    && (forall k | k in was ::
          if k in left then k in blocks && blocks[k] == was[k] else Done(was[k], blocks, k, f, nodes))
  }

  ghost predicate Done(owners: Owners, blocks: Blocks, key: BlockKey, f: Filter, nodes: Nodes) {
    var kept := KeptOwners(owners, f, nodes);
    if kept == map[] then key !in blocks else key in blocks && blocks[key] == kept
  }

  lemma AdjustCopies(c: Counters, before: nat, after: nat)
    ensures Adjust(c, before, after).copies == c.copies - before + after
  {
  }

  lemma ScannedIsRetained(was: Blocks, blocks: Blocks, f: Filter, nodes: Nodes)
    requires Scanned(was, blocks, {}, f, nodes)
    ensures blocks == Retained(was, f, nodes)
  {
    assert forall k | k in was :: Done(was[k], blocks, k, f, nodes);
  }

  lemma ScannedNext(was: Blocks, blocks: Blocks, left: set<BlockKey>, key: BlockKey, f: Filter, nodes: Nodes)
    requires Scanned(was, blocks, left, f, nodes) && key in left && key in was
    ensures Scanned(was, WithOwners(blocks, key, KeptOwners(was[key], f, nodes)), left - {key}, f, nodes)
  {
    var blocks' := WithOwners(blocks, key, KeptOwners(was[key], f, nodes));
    forall k | k in was && k !in left - {key} ensures Done(was[k], blocks', k, f, nodes) {
      assert k != key ==> Done(was[k], blocks, k, f, nodes);
    }
  }

  lemma SameSizeSubmap(a: Nodes, b: Nodes)
    requires forall n | n in a :: n in b && a[n] == b[n]
    ensures |a| == |b| ==> a == b
  {
    assert |a| == |a.Keys| && |b| == |b.Keys|;
    assert a.Keys <= b.Keys;
    assert b.Keys == a.Keys + (b.Keys - a.Keys);
  }

  lemma PutSize(blocks: Blocks, key: BlockKey, owners: Owners)
    requires key in blocks
    ensures |WithOwners(blocks, key, owners)| == |blocks| - if owners == map[] then 1 else 0
  {
    if owners == map[] {
      assert blocks == (blocks - {key})[key := blocks[key]];
    } else {
      assert blocks.Keys == blocks[key := owners].Keys;
      assert |blocks| == |blocks.Keys| && |blocks[key := owners]| == |blocks[key := owners].Keys|;
    }
  }

  lemma RemovedOne(owners: Owners, n: Node)
    requires n in owners
    ensures |owners - {n}| == |owners| - 1
  {
    assert owners == (owners - {n})[n := owners[n]];
  }

  lemma AccountedWith(blocks: Blocks, key: BlockKey, owners: Owners)
    ensures AccountedOf(WithOwners(blocks, key, owners)) == WithNodes(AccountedOf(blocks), key, owners.Keys)
  {
    assert owners == map[] <==> owners.Keys == {};
  }

  lemma PutBalanced(c: Counters, blocks: Blocks, key: BlockKey, owners: Owners)
    requires Balanced(c, AccountedOf(blocks))
    ensures Balanced(Adjust(c, |OwnersOf(blocks, key)|, |owners|), AccountedOf(WithOwners(blocks, key, owners)))
  {
    var before := OwnersOf(blocks, key);
    assert |before| == |before.Keys| && |owners| == |owners.Keys|;
    AdjustExact(c, AccountedOf(blocks), key, |before|, owners.Keys);
    AccountedWith(blocks, key, owners);
  }

  lemma VisibleAtMost(blocks: Blocks, nodes: Nodes, cfg: Config, key: BlockKey, now: nat)
    ensures |VisibleOwners(blocks, nodes, cfg, key, now)| <= |OwnersOf(blocks, key)|
  {
    var owners := OwnersOf(blocks, key);
    assert |owners| == |owners.Keys|;
    SubsetSize(VisibleOwners(blocks, nodes, cfg, key, now), owners.Keys);
  }

  lemma {:induction false} SubsetSize<T>(a: set<T>, b: set<T>)
    requires a <= b
    ensures |a| <= |b|
  {
    assert b == a + (b - a);
  }

  ghost function Hints(
    blocks: Blocks, nodes: Nodes, cfg: Config, ns: string, hashes: seq<Hash>, n: Node, o: OwnerRecord): seq<Hash>
  {
    if hashes == [] then []
    else
      var last := hashes[|hashes|-1];
      var before := Inserted(blocks, ns, hashes[..|hashes|-1], n, o);
      Hints(blocks, nodes, cfg, ns, hashes[..|hashes|-1], n, o)
      + if Reclaimable(before, nodes, cfg, BlockKey(ns, last), n, o) then [last] else []
  }

  // ------------------------------------------------------------ the calls, owner by owner

  lemma VisibleAnswers(blocks: Blocks, nodes: Nodes, cfg: Config, key: BlockKey, now: nat)
    ensures forall n :: n in VisibleOwners(blocks, nodes, cfg, key, now) <==> Answers(blocks, nodes, cfg, key, n, now)
    ensures key in blocks ==>
              VisibleOwners(blocks, nodes, cfg, key, now) ==
              (set n | n in blocks[key] && Answers(blocks, nodes, cfg, key, n, now))
  {
  }

  lemma AllVisibleAnswer(blocks: Blocks, nodes: Nodes, cfg: Config, now: nat)
    ensures forall key, n ::
              n in VisibleOwners(blocks, nodes, cfg, key, now) <==> Answers(blocks, nodes, cfg, key, n, now)
  {
    forall key { VisibleAnswers(blocks, nodes, cfg, key, now); }
  }

  lemma ReclaimableExactly(blocks: Blocks, nodes: Nodes, cfg: Config, key: BlockKey, n: Node, o: OwnerRecord)
    ensures Reclaimable(blocks, nodes, cfg, key, n, o) <==> WorthHint(blocks, nodes, cfg, key, n, o)
  {
    var after := blocks[key := OwnersOf(blocks, key)[n := o]];
    VisibleAnswers(after, nodes, cfg, key, o.registered);
  }

  lemma HintsExactly(blocks: Blocks, nodes: Nodes, cfg: Config, ns: string, hashes: seq<Hash>, n: Node,
                     o: OwnerRecord)
    ensures forall h :: h in Hints(blocks, nodes, cfg, ns, hashes, n, o) <==>
              h in hashes && WorthHint(blocks, nodes, cfg, BlockKey(ns, h), n, o)
  {
    forall h
      ensures h in Hints(blocks, nodes, cfg, ns, hashes, n, o) <==>
                h in hashes && WorthHint(blocks, nodes, cfg, BlockKey(ns, h), n, o)
    {
      HintedExactly(blocks, nodes, cfg, ns, hashes, n, o, h);
      ReclaimableExactly(blocks, nodes, cfg, BlockKey(ns, h), n, o);
    }
  }

  lemma InsertedPointwise(blocks: Blocks, ns: string, hashes: seq<Hash>, node: Node, o: OwnerRecord)
    ensures forall key, n ::
              RecordAt(Inserted(blocks, ns, hashes, node, o), key, n) ==
                if n == node && key.ns == ns && key.hash in hashes then Some(o) else RecordAt(blocks, key, n)
  {
    forall key, n
      ensures RecordAt(Inserted(blocks, ns, hashes, node, o), key, n) ==
                if n == node && key.ns == ns && key.hash in hashes then Some(o) else RecordAt(blocks, key, n)
    {
      InsertedExactly(blocks, ns, hashes, node, o, key);
    }
  }

  lemma NoKeyEmpty(c: Counters, blocks: Blocks)
    requires Balanced(c, AccountedOf(blocks))
    ensures forall k | k in blocks :: blocks[k] != map[]
  {
    forall k | k in blocks ensures blocks[k] != map[] { assert AccountedOf(blocks)[k] != {}; }
  }

  lemma RemovedPointwise(blocks: Blocks, ns: string, hashes: seq<Hash>, node: Node, id: Session)
    requires forall k | k in blocks :: blocks[k] != map[]
    ensures forall key, n ::
              RecordAt(Removed(blocks, ns, hashes, node, id), key, n) ==
                if n == node && key.ns == ns && key.hash in hashes && Stored(blocks, key, n)
                   && blocks[key][n].session == id then None
                else RecordAt(blocks, key, n)
  {
    forall key, n
      ensures RecordAt(Removed(blocks, ns, hashes, node, id), key, n) ==
                if n == node && key.ns == ns && key.hash in hashes && Stored(blocks, key, n)
                   && blocks[key][n].session == id then None
                else RecordAt(blocks, key, n)
    {
      RemovedAt(blocks, ns, hashes, node, id, key, n);
    }
  }

  lemma RemovedAt(blocks: Blocks, ns: string, hashes: seq<Hash>, node: Node, id: Session, key: BlockKey, n: Node)
    requires forall k | k in blocks :: blocks[k] != map[]
    ensures RecordAt(Removed(blocks, ns, hashes, node, id), key, n) ==
              if n == node && key.ns == ns && key.hash in hashes && Stored(blocks, key, n)
                 && blocks[key][n].session == id then None
              else RecordAt(blocks, key, n)
  {
    var after := Removed(blocks, ns, hashes, node, id);
    RemovedExactly(blocks, ns, hashes, node, id, key);
    assert Stored(after, key, n) <==> n in OwnersOf(after, key);
    assert Stored(blocks, key, n) <==> n in OwnersOf(blocks, key);
  }

  /** Which records a scan of each kind spares. */
  ghost predicate Spares(f: Filter, nodes: Nodes, n: Node, o: OwnerRecord) {
    match f
    case LiveSessions => n in nodes && nodes[n].session == o.session
    case LiveSessionsOf(node) => n == node ==> n in nodes && nodes[n].session == o.session
    case Younger(now, maxAge) => now <= o.registered + maxAge
    case Nothing => false
  }

  /** When a node is dropped its records go, and only they. */
  lemma UnregisteredPointwise(blocks: Blocks, nodes: Nodes, node: Node)
    requires node !in nodes
    ensures forall key, n ::
              RecordAt(Retained(blocks, LiveSessionsOf(node), nodes), key, n) ==
                if n == node then None else RecordAt(blocks, key, n)
  {
    RetainedPointwise(blocks, LiveSessionsOf(node), nodes);
  }

  /** A scan leaves, owner by owner, what it spares, and no key without owners. */
  lemma RetainedPointwise(blocks: Blocks, f: Filter, nodes: Nodes)
    ensures var after := Retained(blocks, f, nodes);
            && (forall key | key in after :: after[key] != map[])
            && forall key, n ::
                 RecordAt(after, key, n) ==
                   if Stored(blocks, key, n) && !Spares(f, nodes, n, blocks[key][n]) then None
                   else RecordAt(blocks, key, n)
  {
    var after := Retained(blocks, f, nodes);
    forall key, n
      ensures RecordAt(after, key, n) ==
                if Stored(blocks, key, n) && !Spares(f, nodes, n, blocks[key][n]) then None
                else RecordAt(blocks, key, n)
    {
      if Stored(blocks, key, n) && Keeps(f, nodes, n, blocks[key][n]) {
        assert n in KeptOwners(blocks[key], f, nodes);
      }
    }
  }

  // ------------------------------------------------------------ what callers may rely on

  ghost predicate Listed(key: BlockKey, ns: string, hashes: seq<Hash>) { key.ns == ns && key.hash in hashes }

  /** An insert call writes exactly the caller's record under exactly the listed keys. */
  lemma {:induction false} InsertedExactly(
    blocks: Blocks, ns: string, hashes: seq<Hash>, n: Node, o: OwnerRecord, key: BlockKey)
    ensures OwnersOf(Inserted(blocks, ns, hashes, n, o), key) ==
            if Listed(key, ns, hashes) then OwnersOf(blocks, key)[n := o] else OwnersOf(blocks, key)
    ensures key in Inserted(blocks, ns, hashes, n, o) <==> key in blocks || Listed(key, ns, hashes)
  {
    if hashes != [] {
      InsertedExactly(blocks, ns, hashes[..|hashes|-1], n, o, key);
      assert hashes == hashes[..|hashes|-1] + [hashes[|hashes|-1]];
      assert OwnersOf(blocks, key)[n := o][n := o] == OwnersOf(blocks, key)[n := o];
    }
  }

  lemma SameReclaimable(a: Blocks, b: Blocks, nodes: Nodes, cfg: Config, key: BlockKey, n: Node, o: OwnerRecord)
    requires OwnersOf(a, key) == OwnersOf(b, key)
    ensures Reclaimable(a, nodes, cfg, key, n, o) <==> Reclaimable(b, nodes, cfg, key, n, o)
  {
    var owners := OwnersOf(a, key)[n := o];
    assert OwnersOf(a[key := owners], key) == OwnersOf(b[key := owners], key);
    assert VisibleOwners(a[key := owners], nodes, cfg, key, o.registered) ==
             VisibleOwners(b[key := owners], nodes, cfg, key, o.registered);
  }

  /** A hash is hinted exactly when its block was worth it before the call, and only once however often it is listed. */
  lemma {:induction false} HintedExactly(
    blocks: Blocks, nodes: Nodes, cfg: Config, ns: string, hashes: seq<Hash>, n: Node, o: OwnerRecord, h: Hash)
    ensures h in Hints(blocks, nodes, cfg, ns, hashes, n, o) <==>
              h in hashes && Reclaimable(blocks, nodes, cfg, BlockKey(ns, h), n, o)
    ensures multiset(Hints(blocks, nodes, cfg, ns, hashes, n, o))[h] <= 1
  {
    if hashes != [] {
      var front, last := hashes[..|hashes|-1], hashes[|hashes|-1];
      assert hashes == front + [last];
      HintedExactly(blocks, nodes, cfg, ns, front, n, o, h);
      var key := BlockKey(ns, last);
      var before := Inserted(blocks, ns, front, n, o);
      InsertedExactly(blocks, ns, front, n, o, key);
      if last in front {
        assert OwnersOf(before, key)[n] == o;
      } else {
        SameReclaimable(before, blocks, nodes, cfg, key, n, o);
      }
    }
  }

  /** A remove call drops exactly what this session wrote under exactly the listed keys. */
  lemma {:induction false} RemovedExactly(
    blocks: Blocks, ns: string, hashes: seq<Hash>, n: Node, id: Session, key: BlockKey)
    requires forall k | k in blocks :: blocks[k] != map[]
    ensures var after := Removed(blocks, ns, hashes, n, id);
            && (forall k | k in after :: after[k] != map[])
            && OwnersOf(after, key) ==
               if Listed(key, ns, hashes) then WithoutOwner(OwnersOf(blocks, key), n, id) else OwnersOf(blocks, key)
  {
    if hashes != [] {
      RemovedExactly(blocks, ns, hashes[..|hashes|-1], n, id, key);
      assert hashes == hashes[..|hashes|-1] + [hashes[|hashes|-1]];
      assert OwnersOf(blocks, key) == map[] ==> WithoutOwner(OwnersOf(blocks, key), n, id) == map[];
    }
  }

  /** Removing what was just inserted restores the directory, if the session owned none of it before. */
  lemma RemoveUndoesInsert(blocks: Blocks, ns: string, hashes: seq<Hash>, n: Node, o: OwnerRecord)
    requires forall k | k in blocks :: blocks[k] != map[]
    requires forall h | h in hashes :: n !in OwnersOf(blocks, BlockKey(ns, h))
    ensures Removed(Inserted(blocks, ns, hashes, n, o), ns, hashes, n, o.session) == blocks
  {
    var mid := Inserted(blocks, ns, hashes, n, o);
    forall k | k in mid ensures mid[k] != map[] {
      InsertedExactly(blocks, ns, hashes, n, o, k);
      assert mid[k] == OwnersOf(mid, k);
      if Listed(k, ns, hashes) { assert n in mid[k]; }
    }
    var after := Removed(mid, ns, hashes, n, o.session);
    forall k ensures OwnersOf(after, k) == OwnersOf(blocks, k) {
      InsertedExactly(blocks, ns, hashes, n, o, k);
      RemovedExactly(mid, ns, hashes, n, o.session, k);
      if Listed(k, ns, hashes) {
        assert k == BlockKey(ns, k.hash);
        assert OwnersOf(blocks, k)[n := o] - {n} == OwnersOf(blocks, k);
      }
    }
    RemovedExactly(mid, ns, hashes, n, o.session, BlockKey(ns, []));
    SameOwners(after, blocks);
  }

  lemma SameOwners(a: Blocks, b: Blocks)
    requires forall k | k in a :: a[k] != map[]
    requires forall k | k in b :: b[k] != map[]
    requires forall k :: OwnersOf(a, k) == OwnersOf(b, k)
    ensures a == b
  {
    forall k ensures k in a <==> k in b { assert OwnersOf(a, k) == OwnersOf(b, k); }
    forall k | k in a ensures k in b && a[k] == b[k] { assert OwnersOf(a, k) == OwnersOf(b, k); }
  }

  /** A node that just inserted a block is a visible owner of it until it goes stale. */
  lemma InsertedIsVisible(
    blocks: Blocks, nodes: Nodes, cfg: Config, ns: string, hashes: seq<Hash>, n: Node, id: Session, now: nat,
    later: nat, h: Hash)
    requires n in nodes && nodes[n].session == id && nodes[n].lastSeen == now && later <= now + cfg.staleAfter
    requires h in hashes
    ensures var after := Inserted(blocks, ns, hashes, n, OwnerRecord(id, now));
            n in VisibleOwners(after, nodes, cfg, BlockKey(ns, h), later)
  {
    InsertedExactly(blocks, ns, hashes, n, OwnerRecord(id, now), BlockKey(ns, h));
  }

  /** The directory after a sweep at time `now`. */
  ghost function Swept(blocks: Blocks, nodes: Nodes, reconcile: bool, cfg: Config, now: nat): Blocks {
    var nodes' := LiveNodes(nodes, cfg, now);
    if nodes' == nodes && !reconcile then blocks else Retained(blocks, LiveSessions, nodes')
  }

  /** No query at or after the sweep can tell whether the sweep ran. */
  ghost predicate SweepInvisible(cfg: Config) {
    forall blocks, nodes, reconcile, now: nat, later: nat, key | now <= later ::
      SameVisible(blocks, nodes, reconcile, cfg, now, later, key)
  }

  ghost predicate SameVisible(
    blocks: Blocks, nodes: Nodes, reconcile: bool, cfg: Config, now: nat, later: nat, key: BlockKey)
  {
    VisibleOwners(Swept(blocks, nodes, reconcile, cfg, now), LiveNodes(nodes, cfg, now), cfg, key, later)
    == VisibleOwners(blocks, nodes, cfg, key, later)
  }

  lemma SweepKeepsVisible(
    blocks: Blocks, nodes: Nodes, reconcile: bool, cfg: Config, now: nat, later: nat, key: BlockKey)
    requires cfg.staleAfter <= cfg.ttl && now <= later
    ensures SameVisible(blocks, nodes, reconcile, cfg, now, later, key)
  {
    var nodes' := LiveNodes(nodes, cfg, now);
    var blocks' := Swept(blocks, nodes, reconcile, cfg, now);
    forall n
      ensures n in VisibleOwners(blocks, nodes, cfg, key, later) <==>
                n in VisibleOwners(blocks', nodes', cfg, key, later)
    {
      if n in OwnersOf(blocks, key) {
        var o := OwnersOf(blocks, key)[n];
        if Visible(nodes, cfg, n, o, later) {
          assert n in KeptOwners(blocks[key], LiveSessions, nodes');
        }
      }
    }
  }

  /** Sweeping is invisible exactly when nodes stop answering queries before they may be dropped. */
  lemma SweepInvisibleExactly(cfg: Config)
    ensures SweepInvisible(cfg) <==> cfg.staleAfter <= cfg.ttl
  {
    if cfg.staleAfter <= cfg.ttl {
      forall blocks, nodes, reconcile, now: nat, later: nat, key | now <= later
        ensures SameVisible(blocks, nodes, reconcile, cfg, now, later, key)
      {
        SweepKeepsVisible(blocks, nodes, reconcile, cfg, now, later, key);
      }
    } else {
      // A node silent for ttl + 1 still answers queries, and the sweep drops it.
      var key, n := BlockKey("", []), "a";
      var blocks: Blocks := map[key := map[n := OwnerRecord(1, 0)]];
      var nodes: Nodes := map[n := NodeRecord(1, 0, None)];
      assert n in VisibleOwners(blocks, nodes, cfg, key, cfg.ttl + 1);
      assert n !in LiveNodes(nodes, cfg, cfg.ttl + 1);
      assert !SameVisible(blocks, nodes, false, cfg, cfg.ttl + 1, cfg.ttl + 1, key);
    }
  }
}
