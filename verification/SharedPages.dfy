/** Two tensor-parallel replicas that store pages: the smallest instance on which a load mixes up ranks. */
module SharedPages {
  import opened Common
  import opened Seqs
  import opened Layout
  import opened PageLayouts
  import opened Topology
  import opened Sealing
  import opened Registration
  import opened Blocks
  import opened WritePath
  import opened Transfer
  import opened CopyDescs
  import opened SaveTargets
  import opened SavePath
  import opened SaveBatches
  import opened Progress
  import opened LoadPath
  import opened SaveLoad
  import opened Engine

  const NAME: string := "kv"

  /** One block of one byte. */
  const ONE_BYTE: KVCacheLayout := KVCacheLayout(1, 1, 1, 1, 1, 1, 1, Contiguous)

  function Replica(rank: nat): Worker { Worker(rank, rank, 0, map[NAME := ONE_BYTE], map[]) }

  const REPLICAS: seq<Worker> := [Replica(0), Replica(1)]

  const TOPOLOGY: LayerTopology :=
    LayerTopology([NAME], map[NAME := 0], 2, [0], [1], [0], Some(PageLayout([0], [0], [1], [1])))

  const INSTANCE: Env := Env(TOPOLOGY, "ns", map[0 := Replica(0), 1 := Replica(1)])

  lemma OneByteRegistered()
    ensures RegisteredLayout(ONE_BYTE, false)
  {
    assert RegisterLayout(CacheSpec(1, 1, 1, 1, 0, 1, None), false) == Ok(ONE_BYTE);
  }

  lemma ReplicasAccepted()
    ensures Verdict(REPLICAS, 2, true).None?
  {
    assert Agree(GeometryViews(REPLICAS)) && Agree(GroupViews(REPLICAS));
    assert REPLICAS[0] in REPLICAS && REPLICAS[1] in REPLICAS;
    assert GroupOf(REPLICAS[0], NAME) == 0 && UsedGroup(REPLICAS, 0);
    assert forall g: nat | UsedGroup(REPLICAS, g) :: g == 0;
    forall w, n, rank: nat | w in REPLICAS && n in w.caches && rank < 2 ensures Sealing.Owned(REPLICAS, n, rank) {
      assert Owns(REPLICAS[rank], n, rank);
    }
  }

  lemma ReplicasRanked()
    ensures Ranked(TOPOLOGY)
  {
    assert [0][..0] == [] && [0][1..] == [];
    assert CountIf([0], Is(0)) == 1;
  }

  lemma ReplicaLayers(rank: nat)
    ensures Replica(rank).caches.Keys <= TOPOLOGY.ids.Keys && LayerSetOf(Replica(rank), TOPOLOGY.ids) == {0}
  {
    assert NAME in Replica(rank).caches && TOPOLOGY.ids[NAME] == 0;
  }

  lemma SortOne<T>(x: T, before: (T, T) -> bool)
    ensures SortBy([x], before) == [x]
  {
    assert [x][..0] == [];
  }

  lemma DedupTwice(one: LayerSet)
    ensures Dedup([one, one]) == [one]
  {
    assert [one, one][..1] == [one] && [one][..0] == [];
    assert Dedup([one]) == [one];
  }

  lemma OneSet(one: LayerSet)
    ensures Shards([one, one]) == [one]
  {
    DedupTwice(one);
    SortOne(one, ByLeast());
  }

  lemma OneShard()
    ensures forall w | w in REPLICAS :: w.caches.Keys <= TOPOLOGY.ids.Keys
    ensures Shards(LayerSets(REPLICAS, TOPOLOGY.ids)) == [{0}]
  {
    ReplicaLayers(0);
    ReplicaLayers(1);
    OneSet({0});
    assert LayerSets(REPLICAS, TOPOLOGY.ids) == [{0}, {0}];
  }

  lemma LayersKnown()
    ensures KnowsLayers(TOPOLOGY, REPLICAS)
  {
    forall n ensures n in TOPOLOGY.names <==> HasLayer(REPLICAS, n) { assert REPLICAS[0] in REPLICAS; }
  }

  lemma GroupsKnown()
    ensures KnowsLayers(TOPOLOGY, REPLICAS) && PlacesGroups(TOPOLOGY, REPLICAS)
  {
    LayersKnown();
    ReplicasRanked();
    assert REPLICAS[0] in REPLICAS && GroupOf(REPLICAS[0], NAME) == 0;
    assert forall g: nat | UsedGroup(REPLICAS, g) :: g == 0;
  }

  lemma PagesKnown()
    ensures KnowsLayers(TOPOLOGY, REPLICAS) && PlacesPages(TOPOLOGY, REPLICAS)
  {
    LayersKnown();
    OneShard();
    PageOfOne();
  }

  lemma PageOfOne()
    ensures Describes(TOPOLOGY.page.value, [{0}], [1])
  {
    assert BytesBefore([0], [1], 0, 1) == BytesBefore([0], [1], 0, 0) + 1;
  }

  lemma ReplicasListed()
    ensures Lists(REPLICAS, INSTANCE.workers)
  {
    assert INSTANCE.workers[0] == REPLICAS[0] && INSTANCE.workers[1] == REPLICAS[1];
  }

  /** Registration and sealing accept the instance. */
  lemma ReplicasSeal()
    ensures SealedBy(INSTANCE.t, INSTANCE.workers, INSTANCE.t.tpSize, true)
  {
    ReplicasAccepted();
    GroupsKnown();
    PagesKnown();
    ReplicasListed();
    assert Seals(TOPOLOGY, REPLICAS, 2, true);
  }

  lemma ReplicaRegistered(rank: nat)
    ensures RegisteredWorker(Replica(rank), false)
  {
    OneByteRegistered();
  }

  lemma ReplicasRegistered()
    ensures forall d | d in INSTANCE.workers ::
              INSTANCE.workers[d].tpRank < INSTANCE.t.tpSize && RegisteredWorker(INSTANCE.workers[d], false)
  {
    forall d | d in INSTANCE.workers
      ensures INSTANCE.workers[d].tpRank < 2 && RegisteredWorker(INSTANCE.workers[d], false)
    {
      assert INSTANCE.workers[d] == Replica(d);
      ReplicaRegistered(d);
    }
  }

  lemma ReplicasSound()
    ensures SoundEnv(INSTANCE)
  {
    ReplicasSeal();
    ReplicasRegistered();
    SealedIsSound(INSTANCE, true, false);
  }

  // ------------------------------------------------------------ each rank saved its own byte under one key

  const KEY: BlockKey := BlockKey("ns", [7])

  function Page(rank: nat): RawBlock { RawBlock([Segment(rank, 0, 1)]) }

  function Saved(rank: Byte): Record { Record(KEY, 0, rank, Page(rank), ONE_BYTE, [rank]) }

  const PAGES: Host := map[0 := [0], 1 := [1]]

  const LOG: set<Record> := {Saved(0), Saved(1)}

  const DELIVERED: set<Delivery> := {(KEY, 0, Page(0)), (KEY, 0, Page(1))}

  lemma SavedIntact(rank: Byte)
    requires rank < 2
    ensures Intact(INSTANCE, PAGES, Saved(rank))
  {
    assert RegisteredAs(INSTANCE.workers[0], NAME, ONE_BYTE);
    assert PAGES[rank][0..1] == [rank];
  }

  lemma SavedRecorded(rank: Byte)
    requires rank < 2
    ensures Recorded(INSTANCE, LOG, (KEY, 0, Page(rank)))
  {
    var d: Delivery := (KEY, 0, Page(rank));
    assert Saved(rank) in LOG && OfGroup(INSTANCE, Saved(rank), KEY, 0);
    forall x: nat, r: nat | x < 1 ensures OnRecord(INSTANCE, LOG, d, x, r) { assert Saved(rank) in LOG; }
    assert RecordedAs(INSTANCE, LOG, d, 0);
  }

  lemma AllIntact()
    ensures forall r | r in LOG :: Intact(INSTANCE, PAGES, r)
  {
    forall r | r in LOG ensures Intact(INSTANCE, PAGES, r) { SavedIntact(if r == Saved(0) then 0 else 1); }
  }

  lemma AllRecorded()
    ensures forall d | d in DELIVERED :: Recorded(INSTANCE, LOG, d)
  {
    forall d | d in DELIVERED ensures Recorded(INSTANCE, LOG, d) { SavedRecorded(if d.2 == Page(0) then 0 else 1); }
  }

  lemma StateTrusted()
    ensures Trusted(INSTANCE, PAGES, DELIVERED, LOG)
  {
    ReplicasSound();
    AllIntact();
    AllRecorded();
  }

  const BLOCK: SealedBlock := SealedBlock([Page(0)], 1, [0])

  lemma BlockHeld()
    ensures SealedFrom(BLOCK, KEY, DELIVERED) && Saved(0) in LOG && Saved(1) in LOG
    ensures HoldsInSlot(INSTANCE, 1, NAME, BLOCK, Page(0))
  {
  }

  /** The page of rank 0 was sealed first; every load of it on rank 1 gives the byte of rank 0, not that of rank 1. */
  lemma SecondRankLost(now: Memory, x: Target)
    requires x.block == BLOCK && Restored(INSTANCE, LOG, now, Replica(1), 1, NAME, x)
    ensures SealedBy(INSTANCE.t, INSTANCE.workers, INSTANCE.t.tpSize, true) && Trusted(INSTANCE, PAGES, DELIVERED, LOG)
    ensures SealedFrom(BLOCK, KEY, DELIVERED) && Saved(0) in LOG && Saved(1) in LOG
    ensures DeviceImage(now, ONE_BYTE, x.dest) == Saved(0).image != Saved(1).image
  {
    ReplicasSeal();
    StateTrusted();
    BlockHeld();
    RestoresHeld(INSTANCE, PAGES, DELIVERED, LOG, now, Replica(1), 1, NAME, x, Saved(0));
  }

  /** And there is such a load: the request is accepted, and this memory is what it may leave. */
  lemma SuchALoad(before: Byte)
    ensures SoundEnv(INSTANCE) && Accepts(INSTANCE, 1, 1, [[NAME]], [LeaseOf(BLOCK)])
    ensures Restored(INSTANCE, LOG, [before, 0], Replica(1), 1, NAME, Target(0, KEY, BLOCK))
  {
    ReplicasSound();
    LeaseAccepted(1, BLOCK);
    ByteSound();
    BlockHeld();
    ByteImage([before, 0]);
    assert Saved(0) in LOG && RestoredFrom(INSTANCE, [before, 0], Replica(1), 1, NAME, Target(0, KEY, BLOCK), Saved(0));
  }

  function LeaseOf(b: SealedBlock): Lease { Lease([(KEY, b)], [[Some(0)]]) }

  lemma LeaseTarget(b: SealedBlock)
    ensures forall i: nat, k: nat, x :: Leased([LeaseOf(b)], 0, i, k, x) <==> i == k == 0 && x == Target(0, KEY, b)
  {
  }

  lemma LeaseAccepted(rank: nat, b: SealedBlock)
    requires SoundEnv(INSTANCE) && rank < 2 && |b.slots| == 1
    ensures Accepts(INSTANCE, rank, rank, [[NAME]], [LeaseOf(b)])
  {
    LeaseTarget(b);
    LayerPlanned(rank);
    LeaseFitting(b);
  }

  lemma LayerPlanned(rank: nat)
    requires rank < 2
    ensures NamedOnce([[NAME]]) && OneStorageGroup(TOPOLOGY, [NAME])
    ensures AllLoadable(TOPOLOGY, Replica(rank), rank, [NAME])
  {
    assert GroupKnown(TOPOLOGY, [NAME], Some(0));
    assert Loadable(TOPOLOGY, Replica(rank), rank, NAME);
  }

  lemma LeaseFitting(b: SealedBlock)
    requires |b.slots| == 1
    ensures LeaseFits(TOPOLOGY, [[NAME]], LeaseOf(b))
  {
    var l := LeaseOf(b);
    assert LeaseShaped(l, 1) && l.blocks[0].1 == b;
  }

  lemma ByteSound()
    ensures Layout.Sound(ONE_BYTE)
  {
    OneByteRegistered();
    RegisteredSound(ONE_BYTE, false);
  }

  lemma ByteImage(m: Memory)
    requires Layout.Sound(ONE_BYTE) && |m| == 2
    ensures DeviceImage(m, ONE_BYTE, 0) == [m[1]]
  {
    assert PartRange(ONE_BYTE, 0, 0) == Range(1, 1);
  }

  // ------------------------------------------------------------ a run of the engine

  const SAVE: LayerSave := LayerSave(NAME, [0], [[7]])

  const CONTEXT: Context := Context(0, ONE_BYTE, 0, 0, [(0, [7])])

  lemma OneContext(e: Env, rank: nat)
    requires SoundEnv(e) && e.t == TOPOLOGY && e.ns == "ns" && rank < 2
    ensures Resolvable(e.t, Replica(rank), [SAVE])
    ensures Contexts(e, Replica(rank), [SAVE], {}) == [CONTEXT]
  {
    SaveResolved(rank);
    NothingResident();
    ContextsOfOne(e, Replica(rank), SAVE, {});
  }

  lemma SaveResolved(rank: nat)
    requires rank < 2
    ensures Resolve(TOPOLOGY, Replica(rank), SAVE) == Ok(CONTEXT)
  {
    assert Pairs([0], [[7]]) == [(0, [7])];
  }

  lemma NothingResident()
    ensures Remaining(TOPOLOGY, "ns", CONTEXT, {}) == [CONTEXT]
  {
    assert CONTEXT.blocks[..0] == [];
    assert NotResident(CONTEXT.blocks, "ns", 0, {}) == CONTEXT.blocks;
  }

  lemma ContextsOfOne(e: Env, w: Worker, s: LayerSave, resident: set<BlockKey>)
    requires SoundEnv(e) && Resolve(e.t, w, s).Ok?
    ensures Resolvable(e.t, w, [s]) && Resolve(e.t, w, s).value.group <= U32_MAX
    ensures Contexts(e, w, [s], resident) == Remaining(e.t, e.ns, Resolve(e.t, w, s).value, resident)
  {
    ResolvedGroup(e, w, s);
    assert [s][..0] == [];
  }

  lemma NotRefused(e: Env, rank: nat)
    requires SoundEnv(e) && e.t == TOPOLOGY && e.ns == "ns" && rank < 2
    requires rank in e.workers && e.workers[rank] == Replica(rank)
    ensures Saves(e, rank)
  {
    OneContext(e, rank);
    OneShardSaved();
    AcceptedSave(e, rank, 0, CONTEXT);
  }

  lemma OneShardSaved()
    ensures Paged(TOPOLOGY) && OneWholeShard(TOPOLOGY, [CONTEXT])
  {
    assert [CONTEXT][0].layer == 0;
  }

  lemma AcceptedSave(e: Env, rank: nat, pp: nat, c: Context)
    requires SoundEnv(e) && rank in e.workers && e.workers[rank].tpRank == rank && e.workers[rank].ppRank == pp
    requires Resolvable(e.t, e.workers[rank], [SAVE]) && Contexts(e, e.workers[rank], [SAVE], {}) == [c]
    requires Paged(e.t) && OneWholeShard(e.t, [c])
    ensures !SaveRefused(e, rank, rank, pp, [SAVE], {})
  {
  }

  /** The save of one rank is not refused. */
  ghost predicate Saves(e: Env, rank: nat) {
    && SoundEnv(e) && rank in e.workers && !SaveRefused(e, rank, rank, 0, [SAVE], {})
    && Contexts(e, e.workers[rank], [SAVE], {}) == [CONTEXT]
  }

  /** The load of block `b` by one rank is accepted, and its caller is honest. */
  ghost predicate Loads(e: Env, rank: nat, log: set<Record>, sealed: seq<(BlockKey, SealedBlock)>, b: SealedBlock) {
    && SoundEnv(e) && rank in e.workers && LayersDisjoint(e.workers[rank])
    && HonestLeases(e, log, sealed, [[NAME]], [LeaseOf(b)]) && Accepts(e, rank, rank, [[NAME]], [LeaseOf(b)])
  }

  lemma BothSave()
    ensures Saves(INSTANCE, 0) && Saves(INSTANCE, 1)
  {
    ReplicasSound();
    NotRefused(INSTANCE, 0);
    NotRefused(INSTANCE, 1);
  }

  lemma BothLoad(log: set<Record>, sealed: seq<(BlockKey, SealedBlock)>, b: SealedBlock)
    requires (KEY, b) in sealed && |b.slots| == 1
    ensures Loads(INSTANCE, 0, log, sealed, b) && Loads(INSTANCE, 1, log, sealed, b)
  {
    ReplicasSound();
    OneLoads(0, log, sealed, b);
    OneLoads(1, log, sealed, b);
  }

  lemma OneLoads(rank: nat, log: set<Record>, sealed: seq<(BlockKey, SealedBlock)>, b: SealedBlock)
    requires SoundEnv(INSTANCE) && rank < 2 && (KEY, b) in sealed && |b.slots| == 1
    ensures Loads(INSTANCE, rank, log, sealed, b)
  {
    LeaseAccepted(rank, b);
    LeaseHonest(log, sealed, b);
    OneLayer(rank);
  }

  lemma OneLayer(rank: nat)
    ensures LayersDisjoint(Replica(rank))
  {
  }

  lemma LeaseHonest(log: set<Record>, sealed: seq<(BlockKey, SealedBlock)>, b: SealedBlock)
    requires (KEY, b) in sealed
    ensures HonestLeases(INSTANCE, log, sealed, [[NAME]], [LeaseOf(b)])
  {
    LeaseTarget(b);
  }

  lemma KeyKnown(log: set<Record>)
    ensures KeyOfGroup(INSTANCE, log, KEY, 0) && GroupTotalSlots(INSTANCE.t, 0) == Ok(1)
  {
  }

  /** The record and the delivery of one rank's save. */
  lemma RankSaved(e: Env, w: Worker, stored: seq<seq<RawBlock>>, dev: Memory)
    requires Ready(e, w, [CONTEXT], dev) && ShapedLike([CONTEXT], stored) && e.ns == "ns"
    ensures SavedFor(e, NewRecords(e, w, [CONTEXT], stored, dev), KEY, 0)
    ensures GroupsSmall([CONTEXT]) && (KEY, 0, stored[0][0]) in NewDeliveries(e, [CONTEXT], stored)
  {
    assert ContextOk(e, w, [CONTEXT][0]);
    var r := NewRecord(e, w, [CONTEXT], stored, dev, 0, 0);
    assert r in NewRecords(e, w, [CONTEXT], stored, dev) && OfGroup(e, r, KEY, 0);
    assert DeliveryOf(e, [CONTEXT], stored, 0, 0) == (KEY, 0, stored[0][0]);
  }

  lemma SavedForMore(e: Env, some: set<Record>, more: set<Record>, key: BlockKey, g: nat)
    requires SavedFor(e, some, key, g) && some <= more
    ensures SavedFor(e, more, key, g)
  {
    var r :| r in some && OfGroup(e, r, key, g);
    assert r in more;
  }

  /** One rank saves its byte. */
  method SaveByte(engine: PegaEngine, rank: nat) returns (error: Option<SaveError>)
    requires engine.Valid() && Saves(engine.e, rank) && engine.e.ns == "ns"
    modifies engine`host, engine`queue, engine`delivered, engine`log
    ensures engine.Valid()
    ensures error.Some? ==> error.value == OutOfMemory || error.value == PageRefused(NoMemory)
    ensures error.None? ==> SavedFor(engine.e, engine.log, KEY, 0) && SlotDelivered(engine.delivered, KEY, 0)
  {
    var r, cs, stored := engine.Save(rank, rank, 0, [SAVE], {}, true);
    if r.Err? { return Some(r.error); }
    RankSaved(engine.e, engine.e.workers[rank], stored, engine.devices[rank]);
    SavedForMore(engine.e, NewRecords(engine.e, engine.e.workers[rank], [CONTEXT], stored, engine.devices[rank]),
                 engine.log, KEY, 0);
    error := None;
  }

  method SaveBoth(engine: PegaEngine) returns (error: Option<SaveError>)
    requires engine.Valid() && Saves(engine.e, 0) && Saves(engine.e, 1) && engine.e.ns == "ns"
    modifies engine`host, engine`queue, engine`delivered, engine`log
    ensures engine.Valid()
    ensures error.Some? ==> error.value == OutOfMemory || error.value == PageRefused(NoMemory)
    ensures error.None? ==> SavedFor(engine.e, engine.log, KEY, 0) && SlotDelivered(engine.delivered, KEY, 0)
  {
    error := SaveByte(engine, 0);
    if error.None? { error := SaveByte(engine, 1); }
  }

  /** The insert worker takes everything that was saved. */
  method Drain(engine: PegaEngine)
    requires engine.Valid() && engine.seen == {}
    modifies engine`sealed, engine`queue, engine`seen, engine`history, engine.worker
    ensures engine.Valid() && engine.seen == {} && engine.queue == []
  {
    while engine.queue != []
      invariant engine.Valid() && engine.seen == {}
      decreases |engine.queue|
    {
      engine.Insert({}, 0);
    }
  }

  lemma OnlySlot(delivered: set<Delivery>, key: BlockKey)
    requires SlotDelivered(delivered, key, 0)
    ensures forall slot: nat | slot < 1 :: SlotDelivered(delivered, key, slot)
  {
  }

  /** Drains the queue and takes a block of the key. */
  method FindBlock(engine: PegaEngine) returns (b: SealedBlock)
    requires engine.Valid() && engine.seen == {}
    requires KeyOfGroup(engine.e, engine.log, KEY, 0) && GroupTotalSlots(engine.e.t, 0) == Ok(1)
    requires SavedFor(engine.e, engine.log, KEY, 0) && SlotDelivered(engine.delivered, KEY, 0)
    modifies engine`sealed, engine`queue, engine`seen, engine`history, engine.worker
    ensures engine.Valid() && (KEY, b) in engine.sealed && |b.slots| == 1
  {
    Drain(engine);
    OnlySlot(engine.delivered, KEY);
    engine.SealedWhenDrained(KEY, 0);
    b := PickBlock(engine.sealed);
  }

  method PickBlock(sealed: seq<(BlockKey, SealedBlock)>) returns (b: SealedBlock)
    requires SealedWhole(sealed, KEY, 1)
    ensures (KEY, b) in sealed && |b.slots| == 1
  {
    var i :| 0 <= i < |sealed| && sealed[i].0 == KEY && |sealed[i].1.slots| == 1;
    b := sealed[i].1;
    assert sealed[i] == (KEY, b);
  }

  lemma BlockLoaded(e: Env, log: set<Record>, before: Memory, after: Memory, w: Worker, rank: nat, b: SealedBlock)
    requires Loaded(e, log, before, after, w, rank, [[NAME]], [LeaseOf(b)])
    ensures Restored(e, log, after, w, rank, NAME, Target(0, KEY, b))
  {
    assert NAME in [[NAME]][0] && Leased([LeaseOf(b)], 0, 0, 0, Target(0, KEY, b));
  }

  /** One rank loads the block into its only place. */
  method LoadByte(engine: PegaEngine, rank: nat, b: SealedBlock)
    requires engine.Valid() && Loads(engine.e, rank, engine.log, engine.sealed, b)
    modifies engine`devices
    ensures engine.Valid() && rank in engine.devices && rank in old(engine.devices)
    ensures engine.devices == old(engine.devices)[rank := engine.devices[rank]]
    ensures |engine.devices[rank]| == |old(engine.devices)[rank]|
    ensures Restored(engine.e, engine.log, engine.devices[rank], engine.e.workers[rank], rank, NAME, Target(0, KEY, b))
  {
    ghost var before := engine.devices;
    var r := engine.Load(rank, rank, [[NAME]], [LeaseOf(b)]);
    BlockLoaded(engine.e, engine.log, before[rank], engine.devices[rank], engine.e.workers[rank], rank, b);
  }

  lemma SameByte(e: Env, s: Snapshot, m: Memory, n: Memory, b: SealedBlock)
    requires Consistent(e, s) && e == INSTANCE && |m| == |n| == 2
    requires Restored(e, s.log, m, e.workers[0], 0, NAME, Target(0, KEY, b))
    requires Restored(e, s.log, n, e.workers[1], 1, NAME, Target(0, KEY, b))
    ensures m[1] == n[1]
  {
    RanksLoadAlike(e, s.host, s.delivered, s.log, NAME,
                   Replica(0), 0, m, Target(0, KEY, b), Replica(1), 1, n, Target(0, KEY, b));
    ByteSound();
    ByteImage(m);
    ByteImage(n);
  }

  predicate TwoBytes(devices: map<nat, Memory>) {
    0 in devices && 1 in devices && |devices[0]| == |devices[1]| == 2
  }

  /** Both ranks load one block. */
  method LoadBoth(engine: PegaEngine, b: SealedBlock) returns (m: Memory, n: Memory)
    requires engine.Valid() && TwoBytes(engine.devices)
    requires Loads(engine.e, 0, engine.log, engine.sealed, b) && Loads(engine.e, 1, engine.log, engine.sealed, b)
    modifies engine`devices
    ensures engine.Valid() && |m| == |n| == 2
    ensures Restored(engine.e, engine.log, m, engine.e.workers[0], 0, NAME, Target(0, KEY, b))
    ensures Restored(engine.e, engine.log, n, engine.e.workers[1], 1, NAME, Target(0, KEY, b))
  {
    LoadByte(engine, 0, b);
    m := engine.devices[0];
    LoadByte(engine, 1, b);
    n := engine.devices[1];
  }

  lemma BytesInside(devices: map<nat, Memory>)
    requires TwoBytes(devices)
    ensures forall d | d in INSTANCE.workers :: d in devices && DeviceHolds(INSTANCE.workers[d], devices[d])
  {
  }

  method NewEngine(a: Byte, b: Byte) returns (engine: PegaEngine)
    ensures fresh(engine) && fresh(engine.worker) && engine.Valid() && engine.e == INSTANCE && engine.seen == {}
    ensures engine.devices == map[0 := [0, a], 1 := [0, b]] && TwoBytes(engine.devices)
  {
    ReplicasSound();
    var devices := map[0 := [0, a], 1 := [0, b]];
    BytesInside(devices);
    engine := new PegaEngine(INSTANCE, devices);
  }

  /** What both ranks get back. */
  method LoadSaved(engine: PegaEngine) returns (m: Memory, n: Memory)
    requires engine.Valid() && engine.e == INSTANCE && engine.seen == {} && TwoBytes(engine.devices)
    requires SavedFor(engine.e, engine.log, KEY, 0) && SlotDelivered(engine.delivered, KEY, 0)
    modifies engine`devices, engine`sealed, engine`queue, engine`seen, engine`history, engine.worker
    ensures |m| == |n| == 2 && m[1] == n[1]
  {
    KeyKnown(engine.log);
    var block := FindBlock(engine);
    BothLoad(engine.log, engine.sealed, block);
    m, n := LoadBoth(engine, block);
    SameByte(engine.e, engine.Now(), m, n, block);
  }

  /** Both ranks save under one key, the queue is drained, and both load the block: they end up with the same byte. */
  method MixUp(a: Byte, b: Byte) returns (r: Result<(Memory, Memory), SaveError>)
    ensures r.Err? ==> r.error == OutOfMemory || r.error == PageRefused(NoMemory)
    ensures r.Ok? ==> |r.value.0| == |r.value.1| == 2 && r.value.0[1] == r.value.1[1]
  {
    var engine := NewEngine(a, b);
    BothSave();
    var error := SaveBoth(engine);
    if error.Some? { return Err(error.value); }
    var m, n := LoadSaved(engine);
    r := Ok((m, n));
  }
}
