/** The engine of one sealed instance: every run of saves, insertions and loads gives back what was saved. */
module Engine {
  import opened Common
  import opened Layout
  import opened Blocks
  import opened WritePath
  import opened SealHistory
  import opened InsertEntries
  import opened Transfer
  import opened CopyDescs
  import opened PageLayouts
  import opened Topology
  import opened Sealing
  import opened Registration
  import opened SaveTargets
  import opened SavePath
  import opened SaveBatches
  import opened Progress
  import opened LoadPath
  import opened SaveLoad

  /** The records one save adds. */
  ghost function NewRecords(e: Env, w: Worker, cs: seq<Context>, stored: seq<seq<RawBlock>>,
                            dev: Memory): (s: set<Record>)
    requires Ready(e, w, cs, dev) && ShapedLike(cs, stored)
    ensures LogsAll(e, w, cs, stored, dev, s)
    ensures forall r | r in s :: exists i: nat, j: nat ::
              i < |cs| && j < |cs[i].blocks| && r == NewRecord(e, w, cs, stored, dev, i, j)
  {
    set i: nat, j: nat | i < |cs| && j < |cs[i].blocks| :: NewRecord(e, w, cs, stored, dev, i, j)
  }

  ghost function NewDeliveries(e: Env, cs: seq<Context>, stored: seq<seq<RawBlock>>): set<Delivery>
    requires ShapedLike(cs, stored) && GroupsSmall(cs)
  {
    set i: nat, j: nat | i < |cs| && j < |cs[i].blocks| :: DeliveryOf(e, cs, stored, i, j)
  }

  // ------------------------------------------------------------ what a save adds, told by its request

  /** The record of block `j` of one layer of a request: the bytes on the device, under the key of the block. */
  ghost predicate RecordOf(e: Env, w: Worker, s: LayerSave, j: nat, dev: Memory, r: Record) {
    && j < |s.hashes| && j < |s.ids| && s.name in e.t.ids && s.name in w.caches
    && e.t.ids[s.name] < |e.t.layerGroup| && e.t.layerGroup[e.t.ids[s.name]] <= U32_MAX
    && Layout.Sound(w.caches[s.name]) && InsideDevice(w.caches[s.name], dev) && s.ids[j] < w.caches[s.name].numBlocks
    && r.key == BlockKey(e.ns, GroupHash(s.hashes[j], e.t.layerGroup[e.t.ids[s.name]]))
    && r.layer == e.t.ids[s.name] && r.rank == w.tpRank && r.layout == w.caches[s.name]
    && r.image == DeviceImage(dev, w.caches[s.name], s.ids[j])
  }

  /** The content is on its way to the slot of the record's layer and rank. */
  ghost predicate Delivers(e: Env, r: Record, delivered: set<Delivery>) {
    Shaped(e.t) && SlotIndex(e.t, r.layer, r.rank).Ok?
    && (r.key, SlotIndex(e.t, r.layer, r.rank).value, r.raw) in delivered
  }

  ghost predicate BlockSaved(e: Env, w: Worker, s: LayerSave, j: nat, dev: Memory, log: set<Record>,
                             delivered: set<Delivery>) {
    exists r | r in log :: RecordOf(e, w, s, j, dev, r) && Delivers(e, r, delivered)
  }

  /** Every block of the request that is not resident is recorded and delivered. */
  ghost predicate AllSaved(e: Env, w: Worker, saves: seq<LayerSave>, resident: set<BlockKey>, dev: Memory,
                           log: set<Record>, delivered: set<Delivery>) {
    forall i: nat, j: nat | i < |saves| && Wanted(e.t, e.ns, saves[i], resident, j) ::
      BlockSaved(e, w, saves[i], j, dev, log, delivered)
  }

  ghost predicate AskedFor(e: Env, w: Worker, saves: seq<LayerSave>, resident: set<BlockKey>, dev: Memory, r: Record) {
    exists i: nat, j: nat ::
      i < |saves| && Wanted(e.t, e.ns, saves[i], resident, j) && RecordOf(e, w, saves[i], j, dev, r)
  }

  /** Nothing else is. */
  ghost predicate OnlySaved(e: Env, w: Worker, saves: seq<LayerSave>, resident: set<BlockKey>, dev: Memory,
                            before: set<Record>, after: set<Record>, some: set<Delivery>, more: set<Delivery>) {
    && before <= after && (forall r | r in after - before :: AskedFor(e, w, saves, resident, dev, r))
    && some <= more && (forall d | d in more - some :: exists r | r in after ::
                          AskedFor(e, w, saves, resident, dev, r) && Delivers(e, r, {d}))
  }

  /** Block `k` of context `m` is block `j` of layer `i` of the request. */
  lemma BlockAsked(e: Env, w: Worker, saves: seq<LayerSave>, resident: set<BlockKey>, cs: seq<Context>, of: seq<nat>,
                   stored: seq<seq<RawBlock>>, dev: Memory, m: nat, k: nat) returns (j: nat)
    requires Ready(e, w, cs, dev) && ShapedLike(cs, stored) && ContextsAt(e.t, e.ns, w, saves, resident, cs, of)
    requires m < |cs| && k < |cs[m].blocks| && cs[m].group <= U32_MAX
    ensures Wanted(e.t, e.ns, saves[of[m]], resident, j)
    ensures RecordOf(e, w, saves[of[m]], j, dev, NewRecord(e, w, cs, stored, dev, m, k))
    ensures Delivers(e, NewRecord(e, w, cs, stored, dev, m, k), {DeliveryOf(e, cs, stored, m, k)})
  {
    var s := saves[of[m]];
    assert ContextFor(e.t, e.ns, w, s, resident, cs[m]);
    var at: seq<nat> :| TakenAt(e.t, e.ns, s, resident, cs[m].blocks, at);
    j := at[k];
    assert j in at && ContextOk(e, w, cs[m]);
    ContextLayout(e, w, cs[m]);
  }

  /** Where a wanted block is among the contexts. */
  lemma BlockFound(e: Env, w: Worker, saves: seq<LayerSave>, resident: set<BlockKey>, cs: seq<Context>, of: seq<nat>,
                   i: nat, j: nat) returns (m: nat, k: nat)
    requires ContextsAt(e.t, e.ns, w, saves, resident, cs, of) && i < |saves|
    requires Wanted(e.t, e.ns, saves[i], resident, j) && j < |saves[i].ids|
    ensures m < |cs| && of[m] == i && k < |cs[m].blocks| && cs[m].blocks[k] == (saves[i].ids[j], saves[i].hashes[j])
  {
    assert HasWanted(e.t, e.ns, saves[i], resident);
    m :| 0 <= m < |of| && of[m] == i;
    assert ContextFor(e.t, e.ns, w, saves[i], resident, cs[m]);
    var at: seq<nat> :| TakenAt(e.t, e.ns, saves[i], resident, cs[m].blocks, at);
    k :| 0 <= k < |at| && at[k] == j;
  }

  lemma SaveListsAll(e: Env, w: Worker, saves: seq<LayerSave>, resident: set<BlockKey>, cs: seq<Context>,
                     stored: seq<seq<RawBlock>>, dev: Memory, log: set<Record>, delivered: set<Delivery>)
    requires Ready(e, w, cs, dev) && ShapedLike(cs, stored) && GroupsSmall(cs)
    requires ContextsListed(e.t, e.ns, w, saves, resident, cs)
    requires forall i | 0 <= i < |saves| :: Saveable(e.t, w, saves[i])
    requires LogsAll(e, w, cs, stored, dev, log) && NewDeliveries(e, cs, stored) <= delivered
    ensures AllSaved(e, w, saves, resident, dev, log, delivered)
  {
    var of :| ContextsAt(e.t, e.ns, w, saves, resident, cs, of);
    forall i: nat, j: nat | i < |saves| && Wanted(e.t, e.ns, saves[i], resident, j)
      ensures BlockSaved(e, w, saves[i], j, dev, log, delivered)
    {
      assert Saveable(e.t, w, saves[i]);
      var m, k := BlockFound(e, w, saves, resident, cs, of, i, j);
      FoundSaved(e, w, saves[i], j, cs, stored, dev, log, delivered, m, k);
    }
  }

  lemma FoundSaved(e: Env, w: Worker, s: LayerSave, j: nat, cs: seq<Context>, stored: seq<seq<RawBlock>>, dev: Memory,
                   log: set<Record>, delivered: set<Delivery>, m: nat, k: nat)
    requires Ready(e, w, cs, dev) && ShapedLike(cs, stored) && GroupsSmall(cs)
    requires LogsAll(e, w, cs, stored, dev, log) && NewDeliveries(e, cs, stored) <= delivered
    requires m < |cs| && k < |cs[m].blocks| && Saveable(e.t, w, s) && j < |s.ids|
    requires cs[m].blocks[k] == (s.ids[j], s.hashes[j]) && cs[m].layer == e.t.ids[s.name]
             && cs[m].layout == w.caches[s.name]
    ensures BlockSaved(e, w, s, j, dev, log, delivered)
  {
    assert ContextOk(e, w, cs[m]);
    ContextLayout(e, w, cs[m]);
    var r := NewRecord(e, w, cs, stored, dev, m, k);
    assert r in log && DeliveryOf(e, cs, stored, m, k) in NewDeliveries(e, cs, stored);
    assert RecordOf(e, w, s, j, dev, r) && Delivers(e, r, delivered);
  }

  lemma SaveListsOnly(e: Env, w: Worker, saves: seq<LayerSave>, resident: set<BlockKey>, cs: seq<Context>,
                      stored: seq<seq<RawBlock>>, dev: Memory, log: set<Record>, delivered: set<Delivery>)
    requires Ready(e, w, cs, dev) && ShapedLike(cs, stored) && GroupsSmall(cs)
    requires ContextsListed(e.t, e.ns, w, saves, resident, cs)
    ensures OnlySaved(e, w, saves, resident, dev, log, log + NewRecords(e, w, cs, stored, dev), delivered,
                      delivered + NewDeliveries(e, cs, stored))
  {
    var of :| ContextsAt(e.t, e.ns, w, saves, resident, cs, of);
    var records := NewRecords(e, w, cs, stored, dev);
    forall r | r in records ensures AskedFor(e, w, saves, resident, dev, r) {
      var m: nat, k: nat :| m < |cs| && k < |cs[m].blocks| && r == NewRecord(e, w, cs, stored, dev, m, k);
      AskedAt(e, w, saves, resident, cs, of, stored, dev, m, k);
    }
    forall d | d in NewDeliveries(e, cs, stored)
      ensures exists r | r in log + records :: AskedFor(e, w, saves, resident, dev, r) && Delivers(e, r, {d})
    {
      var m: nat, k: nat :| m < |cs| && k < |cs[m].blocks| && d == DeliveryOf(e, cs, stored, m, k);
      AskedAt(e, w, saves, resident, cs, of, stored, dev, m, k);
      assert NewRecord(e, w, cs, stored, dev, m, k) in log + records;
    }
  }

  lemma AskedAt(e: Env, w: Worker, saves: seq<LayerSave>, resident: set<BlockKey>, cs: seq<Context>, of: seq<nat>,
                stored: seq<seq<RawBlock>>, dev: Memory, m: nat, k: nat)
    requires Ready(e, w, cs, dev) && ShapedLike(cs, stored) && ContextsAt(e.t, e.ns, w, saves, resident, cs, of)
    requires m < |cs| && k < |cs[m].blocks| && cs[m].group <= U32_MAX
    ensures AskedFor(e, w, saves, resident, dev, NewRecord(e, w, cs, stored, dev, m, k))
    ensures Delivers(e, NewRecord(e, w, cs, stored, dev, m, k), {DeliveryOf(e, cs, stored, m, k)})
  {
    var j := BlockAsked(e, w, saves, resident, cs, of, stored, dev, m, k);
  }

  /** Records and deliveries of the stored contexts are added. */
  ghost predicate StoredAs(e: Env, w: Worker, cs: seq<Context>, stored: seq<seq<RawBlock>>, dev: Memory,
                           before: set<Record>, after: set<Record>, some: set<Delivery>, more: set<Delivery>) {
    && Ready(e, w, cs, dev) && ShapedLike(cs, stored) && GroupsSmall(cs)
    && after == before + NewRecords(e, w, cs, stored, dev) && more == some + NewDeliveries(e, cs, stored)
  }

  lemma SaveTold(e: Env, w: Worker, saves: seq<LayerSave>, resident: set<BlockKey>, cs: seq<Context>,
                 stored: seq<seq<RawBlock>>, dev: Memory, before: set<Record>, after: set<Record>,
                 some: set<Delivery>, more: set<Delivery>)
    requires ContextsListed(e.t, e.ns, w, saves, resident, cs)
    requires forall i | 0 <= i < |saves| :: Saveable(e.t, w, saves[i])
    requires if cs == [] then after == before && more == some
             else StoredAs(e, w, cs, stored, dev, before, after, some, more)
    ensures AllSaved(e, w, saves, resident, dev, after, more)
    ensures OnlySaved(e, w, saves, resident, dev, before, after, some, more)
  {
    if cs == [] {
      NothingSaved(e, w, saves, resident, dev, after, more);
    } else {
      SaveListsAll(e, w, saves, resident, cs, stored, dev, after, more);
      SaveListsOnly(e, w, saves, resident, cs, stored, dev, before, some);
    }
  }

  lemma NothingSaved(e: Env, w: Worker, saves: seq<LayerSave>, resident: set<BlockKey>, dev: Memory, log: set<Record>,
                     delivered: set<Delivery>)
    requires ContextsListed(e.t, e.ns, w, saves, resident, [])
    ensures AllSaved(e, w, saves, resident, dev, log, delivered)
    ensures OnlySaved(e, w, saves, resident, dev, log, log, delivered, delivered)
  {
    forall i: nat, j: nat | i < |saves| ensures !Wanted(e.t, e.ns, saves[i], resident, j) {
      if Wanted(e.t, e.ns, saves[i], resident, j) { assert HasWanted(e.t, e.ns, saves[i], resident); }
    }
  }

  // ------------------------------------------------------------ a save keeps everything trusted

  lemma ContextsSmall(e: Env, w: Worker, cs: seq<Context>, dev: Memory)
    requires Ready(e, w, cs, dev)
    ensures GroupsSmall(cs)
  {
    forall i | 0 <= i < |cs|
      ensures cs[i].group <= U32_MAX
    {
      assert ContextOk(e, w, cs[i]); ContextLayout(e, w, cs[i]);
    }
  }

  lemma RecordedGrows(e: Env, log: set<Record>, more: set<Record>, d: Delivery)
    requires Shaped(e.t) && Recorded(e, log, d) && log <= more
    ensures Recorded(e, more, d)
  {
    var g: nat :| RecordedAs(e, log, d, g);
    var r :| r in log && OfGroup(e, r, d.0, g);
    assert r in more;
    forall x: nat, rank: nat | x < |e.t.names| && e.t.layerGroup[x] == g && SlotIndex(e.t, x, rank) == Ok(d.1)
      ensures OnRecord(e, more, d, x, rank)
    {
      assert OnRecord(e, log, d, x, rank);
    }
    assert RecordedAs(e, more, d, g);
  }

  lemma RecordsIntact(e: Env, w: Worker, cs: seq<Context>, ts: seq<LayerTransfer>, stored: seq<seq<RawBlock>>,
                      dev: Memory, g: Host, h: Host, log: set<Record>)
    requires Ready(e, w, cs, dev) && SaveReady(cs, ts, dev, g, h) && Stores(e.t, cs, ts, stored)
    requires forall r | r in log :: Intact(e, g, r)
    ensures AllFit(AllDescs(ts), dev, h)
    ensures forall r | r in log + NewRecords(e, w, cs, stored, dev) :: Intact(e, ToHost(dev, h, AllDescs(ts)), r)
  {
    OldMemoryKept(cs, ts, dev, g, h);
    var after := ToHost(dev, h, AllDescs(ts));
    forall r | r in log + NewRecords(e, w, cs, stored, dev) ensures Intact(e, after, r) {
      if r in log {
        IntactKept(e, g, after, r);
      } else {
        var i: nat, j: nat :| i < |cs| && j < |cs[i].blocks| && r == NewRecord(e, w, cs, stored, dev, i, j);
        NewIntact(e, w, cs, ts, stored, dev, g, h, i, j);
      }
    }
  }

  lemma DeliveriesRecorded(e: Env, w: Worker, cs: seq<Context>, stored: seq<seq<RawBlock>>, dev: Memory,
                           delivered: set<Delivery>, log: set<Record>)
    requires Ready(e, w, cs, dev) && ShapedLike(cs, stored) && WholePages(e.t, cs, stored) && GroupsSmall(cs)
    requires forall d | d in delivered :: Recorded(e, log, d)
    ensures forall d | d in delivered + NewDeliveries(e, cs, stored) ::
              Recorded(e, log + NewRecords(e, w, cs, stored, dev), d)
  {
    var all := log + NewRecords(e, w, cs, stored, dev);
    assert LogsAll(e, w, cs, stored, dev, all);
    forall d | d in delivered + NewDeliveries(e, cs, stored) ensures Recorded(e, all, d) {
      if d in delivered {
        RecordedGrows(e, log, all, d);
      } else {
        var i: nat, j: nat :| i < |cs| && j < |cs[i].blocks| && d == DeliveryOf(e, cs, stored, i, j);
        DeliveryRecorded(e, w, cs, stored, dev, all, i, j);
      }
    }
  }

  /** New records join the old ones; no record, old or new, is damaged by the copies. */
  lemma SaveKeepsTrust(e: Env, w: Worker, cs: seq<Context>, ts: seq<LayerTransfer>, stored: seq<seq<RawBlock>>,
                       dev: Memory, g: Host, h: Host, delivered: set<Delivery>, log: set<Record>)
    requires Ready(e, w, cs, dev) && SaveReady(cs, ts, dev, g, h) && Stores(e.t, cs, ts, stored)
             && WholePages(e.t, cs, stored)
    requires GroupsSmall(cs) && Trusted(e, g, delivered, log)
    ensures AllFit(AllDescs(ts), dev, h)
    ensures Trusted(e, ToHost(dev, h, AllDescs(ts)), delivered + NewDeliveries(e, cs, stored),
                    log + NewRecords(e, w, cs, stored, dev))
  {
    RecordsIntact(e, w, cs, ts, stored, dev, g, h, log);
    DeliveriesRecorded(e, w, cs, stored, dev, delivered, log);
  }

  lemma TracedGrows(inflight: Pending, sealed: seq<(BlockKey, SealedBlock)>, some: set<Delivery>, more: set<Delivery>)
    requires Traced(inflight, sealed, some) && some <= more
    ensures Traced(inflight, sealed, more)
  {
  }

  lemma BatchDelivers(e: Env, cs: seq<Context>, stored: seq<seq<RawBlock>>, b: Batch, delivered: set<Delivery>)
    requires ShapedLike(cs, stored) && GroupsSmall(cs) && BatchFrom(e, cs, stored, b)
             && NewDeliveries(e, cs, stored) <= delivered
    ensures BatchOk(e.ns, b, delivered)
  {
    forall t | t in Triples(b.layers) ensures t.1 < b.total && (BlockKey(e.ns, t.0), t.1, t.2) in delivered {
      TripleFrom(e, cs, stored, b, t);
      var i: nat, j: nat :| i < |cs| && j < |cs[i].blocks| && cs[i].group <= U32_MAX
        && (BlockKey(e.ns, t.0), t.1, t.2) == DeliveryOf(e, cs, stored, i, j);
      assert DeliveryOf(e, cs, stored, i, j) in NewDeliveries(e, cs, stored);
    }
  }

  // ------------------------------------------------------------ copying and storing

  /** Runs the copies of a save, coalesced. */
  method CopyToPinned(ts: seq<LayerTransfer>, dev: Memory, h: Host) returns (after: Host)
    requires Fitting(ts, dev, h)
    ensures AllFit(AllDescs(ts), dev, h) && after == ToHost(dev, h, AllDescs(ts))
  {
    DescsFit(ts, dev, h);
    var built := BuildCopyDescs(ts);
    var merged := Coalesce(built.value);
    after := ToHost(dev, h, merged);
  }

  function RawsOf(lt: LayerTransfer): (raws: seq<RawBlock>)
    requires forall j | 0 <= j < |lt.blocks| :: lt.blocks[j].host.Owned?
    ensures |raws| == |lt.blocks| && forall j | 0 <= j < |raws| :: raws[j] == lt.blocks[j].host.block
  {
    seq(|lt.blocks|, j requires 0 <= j < |lt.blocks| && lt.blocks[j].host.Owned? => lt.blocks[j].host.block)
  }

  ghost predicate HoldsRaws(lt: LayerTransfer, raws: seq<RawBlock>) {
    |raws| == |lt.blocks| && forall j | 0 <= j < |raws| :: Owned(raws[j]) == lt.blocks[j].host
  }

  lemma LayerFirstStores(e: Env, w: Worker, cs: seq<Context>, ts: seq<LayerTransfer>, stored: seq<seq<RawBlock>>,
                         dev: Memory, marks: seq<Host>)
    requires Ready(e, w, cs, dev) && e.t.page.None? && Matches(cs, ts) && PlacedInTurn(ts, marks) && |stored| == |cs|
    requires forall i | 0 <= i < |cs| :: HoldsRaws(ts[i], stored[i])
    ensures Stores(e.t, cs, ts, stored)
  {
    forall i | 0 <= i < |cs| ensures |stored[i]| == |cs[i].blocks| && StoresLayer(e.t, cs[i], ts[i], stored[i]) {
      assert MatchesOne(cs[i], ts[i]) && ContextOk(e, w, cs[i]);
      forall j | 0 <= j < |stored[i]| ensures SamePlace(cs[i].layout, stored[i][j], 0, ts[i].blocks[j].host.block) {
        BlockPlaced(ts, marks, i, j);
      }
    }
  }

  method StoreLayerFirst(ghost e: Env, ghost w: Worker, cs: seq<Context>, blockwise: bool, ghost dev: Memory,
                         host: Host)
    returns (r: Option<(seq<LayerTransfer>, seq<seq<RawBlock>>)>, h: Host)
    requires Ready(e, w, cs, dev) && e.t.page.None?
    ensures r.Some? ==> SaveReady(cs, r.value.0, dev, host, h) && Stores(e.t, cs, r.value.0, r.value.1)
  {
    forall i | 0 <= i < |cs|
      ensures SaveTargets.Registered(cs[i].layout)
    {
      assert ContextOk(e, w, cs[i]); ContextLayout(e, w, cs[i]);
    }
    var placed;
    ghost var marks;
    placed, h, marks := LayerFirstTargets(host, cs, blockwise);
    if placed.None? { return None, h; }
    var ts := placed.value;
    var stored: seq<seq<RawBlock>> := [];
    for i := 0 to |ts|
      invariant |stored| == i
      invariant forall k | 0 <= k < i :: HoldsRaws(ts[k], stored[k])
    {
      assert MatchesOne(cs[i], ts[i]);
      stored := stored + [RawsOf(ts[i])];
    }
    LayerFirstReady(e, w, cs, ts, dev, marks);
    LayerFirstStores(e, w, cs, ts, stored, dev, marks);
    r := Some((ts, stored));
  }

  function PageRaw(page: nat, size: nat): RawBlock { RawBlock([Segment(page, 0, size)]) }

  lemma PageFirstStores(e: Env, w: Worker, cs: seq<Context>, ts: seq<LayerTransfer>, stored: seq<seq<RawBlock>>,
                        dev: Memory, pages: seq<nat>, size: nat, g: Host, h: Host)
    requires Ready(e, w, cs, dev) && PagesCut(e.t, cs, pages, ts, g, h) && |stored| == |cs|
    requires forall i | 0 <= i < |cs| :: |stored[i]| == |pages| && forall j | 0 <= j < |pages| ::
               stored[i][j] == PageRaw(pages[j], size)
    ensures Stores(e.t, cs, ts, stored) && WholePages(e.t, cs, stored)
  {
    forall i | 0 <= i < |cs| ensures |stored[i]| == |cs[i].blocks| && StoresLayer(e.t, cs[i], ts[i], stored[i]) {
      assert MatchesOne(cs[i], ts[i]) && ContextOk(e, w, cs[i]);
      forall j | 0 <= j < |stored[i]|
        ensures SamePlace(cs[i].layout, stored[i][j], StartFor(e.t, cs[i].layer), ts[i].blocks[j].host.block)
      {
        PieceOf(e.t, cs, pages, ts, g, h, i, j);
      }
    }
    forall i | 0 <= i < |cs| ensures stored[i] == stored[0] {}
  }

  lemma PageContexts(e: Env, w: Worker, cs: seq<Context>, dev: Memory)
    requires Ready(e, w, cs, dev) && e.t.page.Some? && |cs| > 0
    ensures Paged(e.t) && Described(e.t) && SameLayerSameLayout(cs) && cs[0].slot < |e.t.page.value.pageSizes|
    ensures forall i | 0 <= i < |cs| :: PageContext(e.t, cs[i])
  {
    forall i | 0 <= i < |cs|
      ensures PageContext(e.t, cs[i])
    {
      assert ContextOk(e, w, cs[i]); ContextLayout(e, w, cs[i]);
    }
    forall i, k | 0 <= i < |cs| && 0 <= k < |cs| && cs[i].layer == cs[k].layer ensures cs[i].layout == cs[k].layout {
      assert ContextOk(e, w, cs[i]) && ContextOk(e, w, cs[k]);
    }
    assert ContextOk(e, w, cs[0]);
  }

  method StorePageFirst(ghost e: Env, ghost w: Worker, t: LayerTopology, cs: seq<Context>, ghost dev: Memory,
                        host: Host)
    returns (r: Result<(seq<LayerTransfer>, seq<seq<RawBlock>>), PageRefusal>, h: Host)
    requires Ready(e, w, cs, dev) && e.t == t && t.page.Some? && |cs| > 0
    ensures Paged(t) && (r.Ok? ==> OneWholeShard(t, cs)) && (r.Err? && r.error != NoMemory ==> !OneWholeShard(t, cs))
    ensures r.Ok? ==>
              SaveReady(cs, r.value.0, dev, host, h) && Stores(e.t, cs, r.value.0, r.value.1)
              && WholePages(e.t, cs, r.value.1)
  {
    PageContexts(e, w, cs, dev);
    PageNotEmpty(t, cs[0]);
    var placed;
    placed, h := PageFirstTargets(host, t, cs);
    if placed.Err? { return Err(placed.error), h; }
    var (pages, ts) := placed.value;
    var size := t.page.value.pageSizes[cs[0].slot];
    var raws: seq<RawBlock> := seq(|pages|, j requires 0 <= j < |pages| => PageRaw(pages[j], size));
    var stored: seq<seq<RawBlock>> := seq(|cs|, _ => raws);
    PageFirstReady(e, w, cs, ts, dev, pages, host, h);
    PageFirstStores(e, w, cs, ts, stored, dev, pages, size, host, h);
    r := Ok((ts, stored));
  }

  lemma SlotsInRange(e: Env, w: Worker, cs: seq<Context>, dev: Memory, totals: seq<nat>)
    requires Ready(e, w, cs, dev) && |totals| == |e.t.groupCount|
    requires forall g | 0 <= g < |totals| :: GroupTotalSlots(e.t, g) == Ok(totals[g])
    ensures forall i | 0 <= i < |cs| :: cs[i].group < |totals| && cs[i].slot < totals[cs[i].group]
  {
    forall i | 0 <= i < |cs| ensures cs[i].group < |totals| && cs[i].slot < totals[cs[i].group] {
      assert ContextOk(e, w, cs[i]);
      SlotInGroup(e.t, cs[i].layer, w.tpRank);
    }
  }

  /** Slot counts by storage group. */
  function Totals(t: LayerTopology): (totals: seq<nat>)
    ensures |totals| == |t.groupCount| && forall g | 0 <= g < |totals| :: GroupTotalSlots(t, g) == Ok(totals[g])
  {
    seq(|t.groupCount|, g requires 0 <= g < |t.groupCount| => GroupTotalSlots(t, g).value)
  }

  /** Page-first batches carry the page once; layer-first batches carry every layer, by storage group. */
  function BatchesOf(t: LayerTopology, cs: seq<Context>, stored: seq<seq<RawBlock>>): seq<Batch>
    requires |stored| == |cs| && GroupsSmall(cs) && |cs| > 0
  {
    if t.page.Some? then [Batch(TotalSlots(t), [SaveLayerOf(cs[0], stored[0])])]
    else GroupBatches(cs, stored, Totals(t))
  }

  method MakeBatches(t: LayerTopology, cs: seq<Context>, stored: seq<seq<RawBlock>>) returns (batches: seq<Batch>)
    requires |stored| == |cs| && GroupsSmall(cs) && |cs| > 0
    ensures batches == BatchesOf(t, cs, stored)
  {
    if t.page.Some? {
      batches := [Batch(TotalSlots(t), [SaveLayerOf(cs[0], stored[0])])];
    } else {
      batches := BatchesByGroup(cs, stored, Totals(t));
    }
  }

  lemma BatchesFrom(e: Env, w: Worker, cs: seq<Context>, stored: seq<seq<RawBlock>>, dev: Memory, b: Batch)
    requires Ready(e, w, cs, dev) && ShapedLike(cs, stored) && |cs| > 0 && GroupsSmall(cs)
             && b in BatchesOf(e.t, cs, stored)
    ensures BatchFrom(e, cs, stored, b)
  {
    SlotsInRange(e, w, cs, dev, Totals(e.t));
    if e.t.page.Some? {
      var layer := SaveLayerOf(cs[0], stored[0]);
      assert LayerFrom(e, cs, stored, layer);
      assert b.layers[0] == layer;
    } else {
      var g := BatchOfGroup(cs, stored, Totals(e.t), b);
      GroupBatchFrom(e, cs, stored, Totals(e.t), g, b);
    }
  }

  lemma BatchOkGrows(ns: string, b: Batch, some: set<Delivery>, more: set<Delivery>)
    requires BatchOk(ns, b, some) && some <= more
    ensures BatchOk(ns, b, more)
  {
  }

  /** Every layer of a batch is a layer of the save, of the storage group whose slot count the batch carries. */
  ghost predicate OneGroupBatch(t: LayerTopology, cs: seq<Context>, stored: seq<seq<RawBlock>>, b: Batch, g: nat)
    requires |stored| == |cs| && GroupsSmall(cs)
  {
    && GroupTotalSlots(t, g) == Ok(b.total)
    && forall k | 0 <= k < |b.layers| :: LayerOfGroup(cs, stored, g, b.layers[k])
  }

  ghost predicate LayerOfGroup(cs: seq<Context>, stored: seq<seq<RawBlock>>, g: nat, layer: SaveLayer)
    requires |stored| == |cs| && GroupsSmall(cs)
  {
    exists i | 0 <= i < |cs| :: cs[i].group == g && layer == SaveLayerOf(cs[i], stored[i])
  }

  lemma GroupBatchGroup(t: LayerTopology, cs: seq<Context>, stored: seq<seq<RawBlock>>, g: nat, b: Batch)
    requires |stored| == |cs| && GroupsSmall(cs) && IsGroupBatch(cs, stored, Totals(t), g, b)
    ensures OneGroupBatch(t, cs, stored, b, g)
  {
    forall k | 0 <= k < |b.layers| ensures LayerOfGroup(cs, stored, g, b.layers[k]) {
      GroupLayersExact(cs, stored, g, |cs|, b.layers[k]);
    }
  }

  lemma PageBatchGroup(e: Env, w: Worker, cs: seq<Context>, stored: seq<seq<RawBlock>>, dev: Memory, b: Batch)
    requires Ready(e, w, cs, dev) && |stored| == |cs| > 0 && GroupsSmall(cs) && e.t.page.Some?
    requires b == Batch(TotalSlots(e.t), [SaveLayerOf(cs[0], stored[0])])
    ensures OneGroupBatch(e.t, cs, stored, b, 0)
  {
    assert ContextOk(e, w, cs[0]);
    assert LayerOfGroup(cs, stored, 0, b.layers[0]);
  }

  lemma BatchGroup(e: Env, w: Worker, cs: seq<Context>, stored: seq<seq<RawBlock>>, dev: Memory, b: Batch)
    returns (g: nat)
    requires Ready(e, w, cs, dev) && ShapedLike(cs, stored) && |cs| > 0 && GroupsSmall(cs)
             && b in BatchesOf(e.t, cs, stored)
    ensures OneGroupBatch(e.t, cs, stored, b, g)
  {
    if e.t.page.Some? {
      g := 0;
      PageBatchGroup(e, w, cs, stored, dev, b);
    } else {
      g := BatchOfGroup(cs, stored, Totals(e.t), b);
      GroupBatchGroup(e.t, cs, stored, g, b);
    }
  }

  /** A batch carries the slot count of the storage group that its keys were saved for. */
  lemma NewBatchSized(e: Env, w: Worker, cs: seq<Context>, stored: seq<seq<RawBlock>>, dev: Memory, log: set<Record>,
                      b: Batch)
    requires Ready(e, w, cs, dev) && ShapedLike(cs, stored) && |cs| > 0 && GroupsSmall(cs)
             && LogsAll(e, w, cs, stored, dev, log)
    requires b in BatchesOf(e.t, cs, stored)
    ensures BatchSized(e, log, b)
  {
    BatchesFrom(e, w, cs, stored, dev, b);
    var g := BatchGroup(e, w, cs, stored, dev, b);
    forall t | t in Triples(b.layers) ensures Sized(e, log, BlockKey(e.ns, t.0), b.total) {
      TripleOfGroup(e, w, cs, stored, dev, log, b, g, t);
      assert SizedAs(e, log, BlockKey(e.ns, t.0), b.total, g);
    }
  }

  lemma TripleOfGroup(e: Env, w: Worker, cs: seq<Context>, stored: seq<seq<RawBlock>>, dev: Memory, log: set<Record>,
                      b: Batch, g: nat, t: Triple)
    requires Ready(e, w, cs, dev) && ShapedLike(cs, stored) && GroupsSmall(cs) && LogsAll(e, w, cs, stored, dev, log)
    requires InsertEntries.WellFormed(b.layers) && OneGroupBatch(e.t, cs, stored, b, g) && t in Triples(b.layers)
    ensures SavedFor(e, log, BlockKey(e.ns, t.0), g)
  {
    var k := LayerOfTriple(b.layers, t);
    assert LayerOfGroup(cs, stored, g, b.layers[k]);
    var i :| 0 <= i < |cs| && cs[i].group == g && b.layers[k] == SaveLayerOf(cs[i], stored[i]);
    InLayerTriples(b.layers[k], |b.layers[k].blocks|, t);
    var j: nat :| j < |b.layers[k].blocks| && t == (b.layers[k].hashes[j], b.layers[k].slot, b.layers[k].blocks[j]);
    RecordOfGroup(e, w, cs, stored, dev, log, i, j);
  }

  lemma RecordOfGroup(e: Env, w: Worker, cs: seq<Context>, stored: seq<seq<RawBlock>>, dev: Memory, log: set<Record>,
                      i: nat, j: nat)
    requires Ready(e, w, cs, dev) && ShapedLike(cs, stored) && LogsAll(e, w, cs, stored, dev, log)
    requires i < |cs| && j < |cs[i].blocks| && cs[i].group <= U32_MAX
    ensures SavedFor(e, log, KeyOf(e.ns, cs[i], j), cs[i].group)
  {
    assert ContextOk(e, w, cs[i]);
    assert OfGroup(e, NewRecord(e, w, cs, stored, dev, i, j), KeyOf(e.ns, cs[i], j), cs[i].group);
  }

  lemma LayerInBatch(ns: string, b: Batch, c: Context, raws: seq<RawBlock>, j: nat)
    requires c.group <= U32_MAX && |raws| == |c.blocks| && j < |c.blocks|
    requires InsertEntries.WellFormed(b.layers) && SaveLayerOf(c, raws) in b.layers
    ensures InBatch(ns, b, (KeyOf(ns, c, j), c.slot, raws[j]))
  {
    var layer := SaveLayerOf(c, raws);
    var t: Triple := (layer.hashes[j], layer.slot, layer.blocks[j]);
    InLayerTriples(layer, |layer.blocks|, t);
    var k :| 0 <= k < |b.layers| && b.layers[k] == layer;
    TripleOfLayer(b.layers, k, t);
  }

  /** All that a save delivers is in one of its batches. */
  lemma NewDeliveryWaits(e: Env, w: Worker, cs: seq<Context>, stored: seq<seq<RawBlock>>, dev: Memory, i: nat, j: nat)
    requires Ready(e, w, cs, dev) && ShapedLike(cs, stored) && |cs| > 0 && GroupsSmall(cs)
             && WholePages(e.t, cs, stored)
    requires i < |cs| && j < |cs[i].blocks|
    ensures Waiting(e.ns, BatchesOf(e.t, cs, stored), DeliveryOf(e, cs, stored, i, j))
  {
    SlotsInRange(e, w, cs, dev, Totals(e.t));
    var batches := BatchesOf(e.t, cs, stored);
    if e.t.page.Some? {
      assert cs[i].slot == cs[0].slot && cs[i].blocks == cs[0].blocks && stored[i] == stored[0];
      assert ContextOk(e, w, cs[i]) && ContextOk(e, w, cs[0]);
      var b := batches[0];
      BatchesFrom(e, w, cs, stored, dev, b);
      LayerInBatch(e.ns, b, cs[0], stored[0], j);
    } else {
      LayerBatched(cs, stored, Totals(e.t), i);
      var b :| b in batches && b.total == Totals(e.t)[cs[i].group] && SaveLayerOf(cs[i], stored[i]) in b.layers;
      BatchesFrom(e, w, cs, stored, dev, b);
      LayerInBatch(e.ns, b, cs[i], stored[i], j);
    }
  }

  /** What the queue, the pending and the sealed blocks keep through every run. */
  ghost predicate Flowing(e: Env, log: set<Record>, delivered: set<Delivery>, queue: seq<Batch>, inflight: Pending,
                          sealed: seq<(BlockKey, SealedBlock)>, seen: set<BlockKey>) {
    && QueueOk(e.ns, queue, delivered) && Incomplete(inflight) && Traced(inflight, sealed, delivered)
    && Advancing(e, log, delivered, queue, inflight, sealed, seen)
  }

  lemma SaveFlows(e: Env, w: Worker, cs: seq<Context>, stored: seq<seq<RawBlock>>, dev: Memory, log: set<Record>,
                  delivered: set<Delivery>,
                  queue: seq<Batch>, inflight: Pending, sealed: seq<(BlockKey, SealedBlock)>, seen: set<BlockKey>)
    requires Ready(e, w, cs, dev) && ShapedLike(cs, stored) && |cs| > 0 && GroupsSmall(cs)
             && WholePages(e.t, cs, stored)
    requires Flowing(e, log, delivered, queue, inflight, sealed, seen)
    ensures Flowing(e, log + NewRecords(e, w, cs, stored, dev), delivered + NewDeliveries(e, cs, stored),
                    queue + BatchesOf(e.t, cs, stored), inflight, sealed, seen)
  {
    var batches, all := BatchesOf(e.t, cs, stored), delivered + NewDeliveries(e, cs, stored);
    var records := log + NewRecords(e, w, cs, stored, dev);
    TracedGrows(inflight, sealed, delivered, all);
    forall b | b in queue + batches ensures BatchOk(e.ns, b, all) {
      if b in batches {
        BatchesFrom(e, w, cs, stored, dev, b);
        BatchDelivers(e, cs, stored, b, all);
      } else {
        BatchOkGrows(e.ns, b, delivered, all);
      }
    }
    SaveMovesOn(e, w, cs, stored, dev, log, delivered, queue, inflight, sealed, seen);
  }

  lemma SaveMovesOn(e: Env, w: Worker, cs: seq<Context>, stored: seq<seq<RawBlock>>, dev: Memory, log: set<Record>,
                    delivered: set<Delivery>,
                    queue: seq<Batch>, inflight: Pending, sealed: seq<(BlockKey, SealedBlock)>, seen: set<BlockKey>)
    requires Ready(e, w, cs, dev) && ShapedLike(cs, stored) && |cs| > 0 && GroupsSmall(cs)
             && WholePages(e.t, cs, stored)
    requires Advancing(e, log, delivered, queue, inflight, sealed, seen)
    ensures Advancing(e, log + NewRecords(e, w, cs, stored, dev), delivered + NewDeliveries(e, cs, stored),
                      queue + BatchesOf(e.t, cs, stored), inflight, sealed, seen)
  {
    var batches, all := BatchesOf(e.t, cs, stored), delivered + NewDeliveries(e, cs, stored);
    var records := log + NewRecords(e, w, cs, stored, dev);
    forall b | b in batches ensures BatchSized(e, records, b) { NewBatchSized(e, w, cs, stored, dev, records, b); }
    forall d | d in all && d !in delivered ensures Waiting(e.ns, batches, d) {
      var i: nat, j: nat :| i < |cs| && j < |cs[i].blocks| && d == DeliveryOf(e, cs, stored, i, j);
      NewDeliveryWaits(e, w, cs, stored, dev, i, j);
    }
    SaveAdvances(e, log, records, delivered, all, queue, batches, inflight, sealed, seen);
  }

  lemma InsertFlows(e: Env, log: set<Record>, delivered: set<Delivery>, queue: seq<Batch>, inflight: Pending,
                    sealed: seq<(BlockKey, SealedBlock)>, seen: set<BlockKey>, resident: set<BlockKey>,
                    entries: seq<Entry>, numa: NumaNode)
    requires Flowing(e, log, delivered, queue, inflight, sealed, seen) && queue != []
             && MadeFrom(e.ns, queue[0], entries)
    ensures var (after, more) := ProcessAll(inflight, resident, entries, queue[0].total, numa);
            Flowing(e, log, delivered, queue[1..], after, sealed + more, seen + resident)
  {
    var b := queue[0];
    var (after, more) := ProcessAll(inflight, resident, entries, b.total, numa);
    assert b in queue && BatchOk(e.ns, b, delivered);
    BatchTraced(inflight, resident, entries, b.total, numa, delivered);
    EntriesDelivered(e.ns, b, delivered, entries, |entries|);
    assert entries[..|entries|] == entries && delivered + Deliveries(entries) == delivered;
    JoinTraced(after, inflight, sealed, more, delivered);
    InsertAdvances(e, log, delivered, queue, inflight, sealed, seen, resident, entries, numa);
  }

  ghost predicate QueueOk(ns: string, queue: seq<Batch>, delivered: set<Delivery>) {
    forall b | b in queue :: BatchOk(ns, b, delivered)
  }

  /** Runs the copies and extends the queue of batches. */
  method Finish(ghost e: Env, ghost w: Worker, t: LayerTopology, cs: seq<Context>, ts: seq<LayerTransfer>,
                stored: seq<seq<RawBlock>>, dev: Memory, ghost g: Host, h: Host, queue: seq<Batch>,
                ghost delivered: set<Delivery>, ghost log: set<Record>, ghost inflight: Pending,
                ghost sealed: seq<(BlockKey, SealedBlock)>, ghost seen: set<BlockKey>)
    returns (after: Host, longer: seq<Batch>, ghost all: set<Delivery>, ghost records: set<Record>)
    requires Ready(e, w, cs, dev) && e.t == t && |cs| > 0 && SaveReady(cs, ts, dev, g, h) && GroupsSmall(cs)
    requires Stores(t, cs, ts, stored) && WholePages(t, cs, stored)
    requires Trusted(e, g, delivered, log) && Flowing(e, log, delivered, queue, inflight, sealed, seen)
    ensures records == log + NewRecords(e, w, cs, stored, dev) && all == delivered + NewDeliveries(e, cs, stored)
    ensures Trusted(e, after, all, records) && Extends(after, g)
            && Flowing(e, records, all, longer, inflight, sealed, seen)
    ensures longer == queue + BatchesOf(t, cs, stored)
  {
    SaveKeepsTrust(e, w, cs, ts, stored, dev, g, h, delivered, log);
    OldMemoryKept(cs, ts, dev, g, h);
    after := CopyToPinned(ts, dev, h);
    var batches := MakeBatches(t, cs, stored);
    longer := queue + batches;
    all, records := delivered + NewDeliveries(e, cs, stored), log + NewRecords(e, w, cs, stored, dev);
    SaveFlows(e, w, cs, stored, dev, log, delivered, queue, inflight, sealed, seen);
  }

  // ------------------------------------------------------------ every run

  /** All that a run changes, and what it leaves in the record. */
  datatype Snapshot = Snapshot(
    devices: map<nat, Memory>, host: Host, queue: seq<Batch>, inflight: Pending, sealed: seq<(BlockKey, SealedBlock)>,
    delivered: set<Delivery>, log: set<Record>, seen: set<BlockKey>, history: seq<Arrival>)

  ghost predicate Consistent(e: Env, s: Snapshot) {
    && Trusted(e, s.host, s.delivered, s.log)
    && (forall d | d in e.workers :: d in s.devices && DeviceHolds(e.workers[d], s.devices[d]))
    && Flowing(e, s.log, s.delivered, s.queue, s.inflight, s.sealed, s.seen)
    && Follows(s.history, s.inflight, s.sealed)
  }

  /**
   Between two calls anything may happen to device memory through `WriteDevice`. `sealed` lists every block ever
   sealed: what is resident in the cache or held by a lease is one of these.
   */
  class PegaEngine {
    const e: Env
    const worker: InsertWorker
    var devices: map<nat, Memory>
    var host: Host
    var queue: seq<Batch>
    var sealed: seq<(BlockKey, SealedBlock)>
    ghost var delivered: set<Delivery>
    ghost var log: set<Record>
    ghost var seen: set<BlockKey>  // keys that were resident when a batch was inserted
    ghost var history: seq<Arrival>  // the entries the insert worker was given, in order

    ghost function Now(): Snapshot
      reads this, worker
    {
      Snapshot(devices, host, queue, worker.inflight, sealed, delivered, log, seen, history)
    }

    ghost predicate Valid()
      reads this, worker
    {
      Consistent(e, Now())
    }

    constructor (e: Env, devices: map<nat, Memory>)
      requires SoundEnv(e) && forall d | d in e.workers :: d in devices && DeviceHolds(e.workers[d], devices[d])
      ensures Valid() && this.e == e && this.devices == devices && fresh(worker)
      ensures log == {} && delivered == {} && queue == [] && sealed == [] && seen == {} && history == []
    {
      this.e, this.devices, host, queue, sealed := e, devices, map[], [], [];
      delivered, log, seen, history := {}, {}, {}, [];
      worker := new InsertWorker();
    }

    /** Device memory changes: by a load, or by the model, which writes whatever it likes. */
    method WriteDevice(device: nat, memory: Memory)
      requires Valid() && device in devices && |memory| == |devices[device]|
      modifies this`devices
      ensures Valid() && devices == old(devices)[device := memory]
    {
      devices := devices[device := memory];
    }

    /**
     All or nothing: a refused save leaves no trace; an accepted one records and delivers the device bytes of every
     block of the request that is not resident, and nothing else.
     */
    method Save(device: nat, tpRank: nat, ppRank: nat, saves: seq<LayerSave>, resident: set<BlockKey>, blockwise: bool)
      returns (r: Result<(), SaveError>, ghost cs: seq<Context>, ghost stored: seq<seq<RawBlock>>)
      requires Valid()
      modifies this`host, this`queue, this`delivered, this`log
      ensures Valid() && Extends(host, old(host))
      ensures r.Ok? ==> !SaveRefused(e, device, tpRank, ppRank, saves, resident)
      ensures r.Err? ==> RefusedWith(e, device, tpRank, ppRank, saves, resident, r.error)
      ensures r.Err? || cs == [] ==>
                host == old(host) && queue == old(queue) && log == old(log) && delivered == old(delivered)
      ensures r.Ok? ==> device in e.workers && e.workers[device].tpRank == tpRank && e.workers[device].ppRank == ppRank
      ensures r.Ok? ==> forall i | 0 <= i < |saves| :: Saveable(e.t, e.workers[device], saves[i])
      ensures r.Ok? ==>
                device in devices && AllSaved(e, e.workers[device], saves, resident, devices[device], log, delivered)
      ensures r.Ok? ==>
                OnlySaved(e, e.workers[device], saves, resident, devices[device], old(log), log, old(delivered),
                          delivered)
      ensures r.Ok? ==>
                Resolvable(e.t, e.workers[device], saves) && cs == Contexts(e, e.workers[device], saves, resident)
      ensures r.Ok? && cs != [] ==>
                StoredAs(e, e.workers[device], cs, stored, devices[device], old(log), log, old(delivered), delivered)
      ensures r.Ok? && cs != [] ==> GroupsSmall(cs) && queue == old(queue) + BatchesOf(e.t, cs, stored)
    {
      r, cs, stored := SaveContexts(device, tpRank, ppRank, saves, resident, blockwise);
      if r.Ok? {
        SaveTold(e, e.workers[device], saves, resident, cs, stored, devices[device], old(log), log, old(delivered),
                 delivered);
      }
    }

    /** The same in terms of the contexts that are stored. */
    method SaveContexts(device: nat, tpRank: nat, ppRank: nat, saves: seq<LayerSave>, resident: set<BlockKey>,
                        blockwise: bool)
      returns (r: Result<(), SaveError>, ghost cs: seq<Context>, ghost stored: seq<seq<RawBlock>>)
      requires Valid()
      modifies this`host, this`queue, this`delivered, this`log
      ensures Valid() && Extends(host, old(host))
      ensures r.Ok? ==> !SaveRefused(e, device, tpRank, ppRank, saves, resident)
      ensures r.Err? ==> RefusedWith(e, device, tpRank, ppRank, saves, resident, r.error)
      ensures r.Err? || cs == [] ==>
                host == old(host) && queue == old(queue) && log == old(log) && delivered == old(delivered)
      ensures r.Ok? ==> device in devices && Asks(e, device, tpRank, ppRank, saves, resident, cs)
      ensures r.Ok? && cs != [] ==>
                StoredAs(e, e.workers[device], cs, stored, devices[device], old(log), log, old(delivered), delivered)
      ensures r.Ok? && cs != [] ==> GroupsSmall(cs) && queue == old(queue) + BatchesOf(e.t, cs, stored)
    {
      cs, stored := [], [];
      var resolved := Requested(device, tpRank, ppRank, saves, resident);
      if resolved.Err? {
        NotAskedRefused(e, device, tpRank, ppRank, saves, resident, resolved.error);
        return Err(resolved.error), cs, stored;
      }
      cs := resolved.value;
      r, stored := KeepAny(e.workers[device], resolved.value, blockwise, devices[device]);
      KeptOrRefused(e, device, tpRank, ppRank, saves, resident, cs, r);
    }

    /** A request with nothing to store changes nothing. */
    method KeepAny(w: Worker, cs: seq<Context>, blockwise: bool, dev: Memory)
      returns (r: Result<(), SaveError>, ghost stored: seq<seq<RawBlock>>)
      requires Valid() && Ready(e, w, cs, dev)
      modifies this`host, this`queue, this`delivered, this`log
      ensures Valid() && Extends(host, old(host))
      ensures r.Ok? ==> !PagesRefused(e, cs)
      ensures r.Err? ==> r.error == OutOfMemory || r.error == PageRefused(NoMemory) || PagesRefused(e, cs)
      ensures r.Err? ==> if r.error == OutOfMemory then e.t.page.None? else r.error.PageRefused? && e.t.page.Some?
      ensures r.Err? || cs == [] ==>
                host == old(host) && queue == old(queue) && log == old(log) && delivered == old(delivered)
      ensures r.Ok? && cs != [] ==> StoredAs(e, w, cs, stored, dev, old(log), log, old(delivered), delivered)
      ensures r.Ok? && cs != [] ==> GroupsSmall(cs) && queue == old(queue) + BatchesOf(e.t, cs, stored)
    {
      stored := [];
      if |cs| == 0 { return Ok(()), stored; }
      r, stored := Keep(w, cs, blockwise, dev);
    }

    /** Stores the blocks of a request, or leaves everything as it is. */
    method Keep(w: Worker, cs: seq<Context>, blockwise: bool, dev: Memory)
      returns (r: Result<(), SaveError>, ghost stored: seq<seq<RawBlock>>)
      requires Valid() && Ready(e, w, cs, dev) && |cs| > 0
      modifies this`host, this`queue, this`delivered, this`log
      ensures Valid() && Extends(host, old(host))
      ensures r.Ok? ==> !PagesRefused(e, cs)
      ensures r.Err? ==> r.error == OutOfMemory || r.error == PageRefused(NoMemory) || PagesRefused(e, cs)
      ensures r.Err? ==> if r.error == OutOfMemory then e.t.page.None? else r.error.PageRefused? && e.t.page.Some?
      ensures r.Err? ==> host == old(host) && queue == old(queue) && log == old(log) && delivered == old(delivered)
      ensures r.Ok? ==> StoredAs(e, w, cs, stored, dev, old(log), log, old(delivered), delivered)
      ensures r.Ok? ==> GroupsSmall(cs) && queue == old(queue) + BatchesOf(e.t, cs, stored)
    {
      stored := [];
      var kept, h := Store(w, cs, blockwise, dev);
      if kept.Err? { return Err(kept.error), stored; }
      stored := kept.value.1;
      Commit(w, cs, kept.value.0, kept.value.1, dev, h);
      r := Ok(());
    }

    /** The layers of the request that have blocks to store. */
    method Requested(device: nat, tpRank: nat, ppRank: nat, saves: seq<LayerSave>, resident: set<BlockKey>)
      returns (r: Result<seq<Context>, SaveError>)
      requires Valid()
      ensures r.Err? ==> NotAsked(e, device, tpRank, ppRank, saves, resident, r.error)
      ensures r.Ok? ==> Asks(e, device, tpRank, ppRank, saves, resident, r.value)
      ensures r.Ok? ==> device in devices && Ready(e, e.workers[device], r.value, devices[device])
    {
      r := AskedOf(e, device, tpRank, ppRank, saves, resident);
      if r.Ok? { RequestReady(e, Now(), device, saves, resident); }
    }

    /** Picks the host memory for a save. */
    method Store(w: Worker, cs: seq<Context>, blockwise: bool, dev: Memory)
      returns (r: Result<(seq<LayerTransfer>, seq<seq<RawBlock>>), SaveError>, h: Host)
      requires Ready(e, w, cs, dev) && |cs| > 0
      ensures e.t.page.Some? ==> Paged(e.t)
      ensures r.Ok? && e.t.page.Some? ==> OneWholeShard(e.t, cs)
      ensures r.Err? ==>
                r.error == OutOfMemory || r.error == PageRefused(NoMemory)
                || (e.t.page.Some? && !OneWholeShard(e.t, cs))
      ensures r.Err? ==> if r.error == OutOfMemory then e.t.page.None? else r.error.PageRefused? && e.t.page.Some?
      ensures r.Ok? ==>
                SaveReady(cs, r.value.0, dev, host, h) && Stores(e.t, cs, r.value.0, r.value.1)
                && WholePages(e.t, cs, r.value.1)
    {
      if e.t.page.Some? {
        var paged;
        paged, h := StorePageFirst(e, w, e.t, cs, dev, host);
        r := if paged.Ok? then Ok(paged.value) else Err(PageRefused(paged.error));
      } else {
        var layered;
        layered, h := StoreLayerFirst(e, w, cs, blockwise, dev, host);
        r := if layered.Some? then Ok(layered.value) else Err(OutOfMemory);
      }
    }

    /** Copies, records and queues. */
    method Commit(w: Worker, cs: seq<Context>, ts: seq<LayerTransfer>, stored: seq<seq<RawBlock>>, dev: Memory, h: Host)
      requires Valid() && Ready(e, w, cs, dev) && |cs| > 0 && SaveReady(cs, ts, dev, host, h)
      requires Stores(e.t, cs, ts, stored) && WholePages(e.t, cs, stored)
      modifies this`host, this`queue, this`delivered, this`log
      ensures Valid()
      ensures log == old(log) + NewRecords(e, w, cs, stored, dev) && Extends(host, old(host))
      ensures GroupsSmall(cs) && queue == old(queue) + BatchesOf(e.t, cs, stored)
      ensures delivered == old(delivered) + NewDeliveries(e, cs, stored)
    {
      ContextsSmall(e, w, cs, dev);
      var after, longer;
      ghost var all, records;
      after, longer, all, records :=
        Finish(e, w, e.t, cs, ts, stored, dev, host, h, queue, delivered, log, worker.inflight, sealed, seen);
      Publish(after, longer, all, records);
    }

    method Publish(after: Host, longer: seq<Batch>, ghost all: set<Delivery>, ghost records: set<Record>)
      requires Consistent(e, Now().(host := after, queue := longer, delivered := all, log := records))
      modifies this`host, this`queue, this`delivered, this`log
      ensures Valid() && host == after && queue == longer && delivered == all && log == records
    {
      ghost var next := Now().(host := after, queue := longer, delivered := all, log := records);
      host, queue, delivered, log := after, longer, all, records;
      assert Now() == next;
    }

    /** The insert worker takes the oldest batch. */
    method Insert(resident: set<BlockKey>, numa: NumaNode)
      requires Valid() && queue != []
      modifies this`sealed, this`queue, this`seen, this`history, worker
      ensures Valid()
      ensures queue == old(queue)[1..] && old(sealed) <= sealed && seen == old(seen) + resident
      ensures exists entries :: InsertEntries.WellFormed(old(queue)[0].layers) && Keeps(entries, old(queue)[0].layers)
                && old(Incomplete(worker.inflight)) && AllInRange(entries, old(queue)[0].total)
                && (worker.inflight, sealed[|old(sealed)|..]) ==
                  ProcessAll(old(worker.inflight), resident, entries, old(queue)[0].total, numa)
                && history == old(history) + ArrivalsOf(resident, entries, old(queue)[0].total, numa)
    {
      var b := queue[0];
      assert b in queue && BatchOk(e.ns, b, delivered);
      var entries := BuildInsertEntries(e.ns, b.layers);
      EntriesInRange(e.ns, b, delivered, entries);
      InsertFlows(e, log, delivered, queue, worker.inflight, sealed, seen, resident, entries, numa);
      BatchFollows(history, worker.inflight, sealed, resident, entries, b.total, numa);
      var more := worker.ProcessBatch(resident, entries, b.total, numa);
      assert (sealed + more)[|sealed|..] == more;
      Shift(more, resident, ArrivalsOf(resident, entries, b.total, numa));
    }

    /** Accounts for the processed batch. */
    method Shift(more: seq<(BlockKey, SealedBlock)>, ghost resident: set<BlockKey>, ghost arrivals: seq<Arrival>)
      requires queue != []
      requires Consistent(e, Now().(sealed := sealed + more, queue := queue[1..], seen := seen + resident,
                                    history := history + arrivals))
      modifies this`sealed, this`queue, this`seen, this`history
      ensures Valid() && sealed == old(sealed) + more && queue == old(queue)[1..] && seen == old(seen) + resident
      ensures history == old(history) + arrivals
    {
      ghost var next := Now().(sealed := sealed + more, queue := queue[1..], seen := seen + resident,
                               history := history + arrivals);
      sealed, queue, seen, history := sealed + more, queue[1..], seen + resident, history + arrivals;
      assert Now() == next;
    }

    /**
     Once the queue is drained, a key of one storage group whose slots were all delivered is sealed with all its slots.
     */
    lemma SealedWhenDrained(key: BlockKey, g: nat)
      requires Valid() && queue == [] && key !in seen
      requires KeyOfGroup(e, log, key, g) && SavedFor(e, log, key, g) && GroupTotalSlots(e.t, g).Ok?
               && GroupTotalSlots(e.t, g).value > 0
      requires forall slot: nat | slot < GroupTotalSlots(e.t, g).value :: SlotDelivered(delivered, key, slot)
      ensures SealedWhole(sealed, key, GroupTotalSlots(e.t, g).value)
    {
      KeyOfOneGroup(e, log, key, g);
      DrainedIsSealed(e, log, delivered, worker.inflight, sealed, seen, key, g, GroupTotalSlots(e.t, g).value);
    }

    /**
     Whatever was saved under the key, and however often: a load gives the bytes of the save whose content reached the
     slot first since the key was last sealed.
     */
    lemma LoadGivesFirst(now: Memory, v: Worker, rank: nat, name: string, x: Target) returns (m: nat, r: Record)
      requires Valid() && (x.key, x.block) in sealed && Restored(e, log, now, v, rank, name, x)
      ensures SealedAt(history, m, x.key, x.block) && SlotIndex(e.t, e.t.ids[name], rank).Ok?
      ensures FirstWrite(CollectedAt(history, m).writes, SlotIndex(e.t, e.t.ids[name], rank).value) == Some(r.raw)
      ensures r in log && SavedAs(e, r, x.key, e.t.ids[name], rank)
      ensures DeviceImage(now, v.caches[name], x.dest) == r.image
    {
      var j :| 0 <= j < |sealed| && sealed[j] == (x.key, x.block);
      m := SealedByArrival(history, j);
      SealsExactlyCovered(history, m);
      r :| r in log && RestoredFrom(e, now, v, rank, name, x, r);
    }

    /**
     A load either changes nothing or leaves, in every destination of every layer, the bytes recorded by the save
     that put the content into the block's slot. The slot lookup never fails.
     */
    method Load(device: nat, rank: nat, groups: seq<seq<string>>, leases: seq<Lease>) returns (r: Result<(), LoadError>)
      requires Valid() && (device in e.workers ==> LayersDisjoint(e.workers[device]))
      requires HonestLeases(e, log, sealed, groups, leases)
      modifies this`devices
      ensures Valid() && r != Err(MissingSlot)
      ensures r == Err(NoWorker) <==> device !in e.workers
      ensures r.Err? && device in e.workers ==>
                LoadRefusedFor(e, e.workers[device], rank, groups, leases, r.error)
      ensures r.Ok? <==> Accepts(e, device, rank, groups, leases)
      ensures r.Err? ==> devices == old(devices)
      ensures r.Ok? ==>
                device in old(devices) && device in devices && devices == old(devices)[device := devices[device]]
      ensures r.Ok? ==>
                Loaded(e, log, old(devices)[device], devices[device], e.workers[device], rank, groups, leases)
    {
      if device !in e.workers { return Err(NoWorker); }
      var moved := Transferred(device, rank, groups, leases);
      if moved.Err? { return Err(moved.error); }
      WriteDevice(device, moved.value);
      r := Ok(());
    }

    /** Device memory as the load leaves it. */
    method Transferred(device: nat, rank: nat, groups: seq<seq<string>>, leases: seq<Lease>)
      returns (r: Result<Memory, LoadError>)
      requires Valid() && device in e.workers && LayersDisjoint(e.workers[device])
               && HonestLeases(e, log, sealed, groups, leases)
      ensures r.Err? ==> LoadRefusedFor(e, e.workers[device], rank, groups, leases, r.error)
      ensures r.Ok? <==> Accepts(e, device, rank, groups, leases)
      ensures r.Ok? ==>
                Loaded(e, log, devices[device], r.value, e.workers[device], rank, groups, leases)
    {
      var w, dev := e.workers[device], devices[device];
      var planned, targets := PlanLoad(e, w, rank, groups, leases, host, delivered, log, sealed);
      if planned.Err? { return Err(planned.error); }
      var layers := planned.value;
      LoadUsable(e, host, delivered, log, w, rank, groups, targets, layers, dev);
      PlannedDests(e, host, delivered, log, w, rank, groups, targets, layers);
      LeasesInRange(w, groups, leases, targets);
      var built := BuildCopyDescs(layers);
      if built.None? { return Err(BadDestination); }
      LoadSound(e, host, delivered, log, w, rank, groups, targets, layers, dev);
      LeasesLoaded(e, log, dev, ToDevice(dev, host, AllDescs(layers)), w, rank, groups, leases, targets);
      var merged := Coalesce(built.value);
      r := Ok(ToDevice(dev, host, merged));
    }
  }

  lemma KeyOfOneGroup(e: Env, log: set<Record>, key: BlockKey, g: nat)
    requires KeyOfGroup(e, log, key, g)
    ensures OneGroup(e, log, key)
  {
    forall h: nat | SavedFor(e, log, key, h) ensures h == g { var r :| r in log && OfGroup(e, r, key, h); }
  }

  lemma JoinTraced(after: Pending, before: Pending, sealed: seq<(BlockKey, SealedBlock)>,
                   more: seq<(BlockKey, SealedBlock)>, delivered: set<Delivery>)
    requires Traced(before, sealed, delivered) && Traced(after, more, delivered)
    ensures Traced(after, sealed + more, delivered)
  {
    forall i | 0 <= i < |sealed + more| ensures SealedFrom((sealed + more)[i].1, (sealed + more)[i].0, delivered) {
      if i >= |sealed| { assert (sealed + more)[i] == more[i - |sealed|]; }
    }
  }

  // ------------------------------------------------------------ planning a load

  /**
   What callers promise: leased blocks were sealed, under keys of the group they are loaded into, for distinct
   destinations.
   */
  ghost predicate HonestLeases(e: Env, log: set<Record>, sealed: seq<(BlockKey, SealedBlock)>,
                               groups: seq<seq<string>>, leases: seq<Lease>) {
    && (forall i, k | 0 <= i < |leases| && 0 <= k < |leases[i].blocks| :: leases[i].blocks[k] in sealed)
    && (forall g: nat, i: nat, k: nat, x, n | g < |groups| && Leased(leases, g, i, k, x) && n in groups[g]
        && InTopology(e.t, n) ::
          KeyOfGroup(e, log, x.key, e.t.layerGroup[e.t.ids[n]]))
    && (forall g: nat | g < |groups| :: DestsDiffer(leases, g))
  }

  predicate InTopology(t: LayerTopology, n: string) { n in t.ids && t.ids[n] < |t.layerGroup| }

  /** Some naming of the layers shows that they are the whole load. */
  ghost predicate Planned(e: Env, host: Host, delivered: set<Delivery>, log: set<Record>, w: Worker, rank: nat,
                          groups: seq<seq<string>>, targets: seq<seq<Target>>, layers: seq<LayerTransfer>) {
    exists names, of ::
      Prepared(e, host, delivered, log, w, rank, groups, targets, layers, names, of)
      && Complete(groups, targets, names, of)
  }

  lemma LoadUsable(e: Env, host: Host, delivered: set<Delivery>, log: set<Record>, w: Worker, rank: nat,
                   groups: seq<seq<string>>, targets: seq<seq<Target>>, layers: seq<LayerTransfer>, dev: Memory)
    requires Planned(e, host, delivered, log, w, rank, groups, targets, layers) && DeviceHolds(w, dev)
    ensures Usable(layers)
  {
    var names, of :| Prepared(e, host, delivered, log, w, rank, groups, targets, layers, names, of)
        && Complete(groups, targets, names, of);
    LoadFits(e, host, delivered, log, w, rank, groups, targets, layers, names, of, dev);
  }

  /**
   Every destination that a lease gives for a load group holds, in every layer of the group, what was saved, and
   nothing else changed.
   */
  ghost predicate Loaded(e: Env, log: set<Record>, before: Memory, after: Memory, w: Worker, rank: nat,
                         groups: seq<seq<string>>, leases: seq<Lease>) {
    && |after| == |before|
    && (forall g: nat, i: nat, k: nat, x, n | g < |groups| && n in groups[g] && Leased(leases, g, i, k, x) ::
          Restored(e, log, after, w, rank, n, x))
    && (forall b | 0 <= b < |after| && NotLeased(w, groups, leases, b) :: after[b] == before[b])
  }

  /** Byte `b` belongs to no destination of a lease. */
  ghost predicate NotLeased(w: Worker, groups: seq<seq<string>>, leases: seq<Lease>, b: nat) {
    forall g: nat, i: nat, k: nat, x, n, p: nat | g < |groups| && n in groups[g] && n in w.caches
                                                  && Leased(leases, g, i, k, x) ::
      !InPart(w.caches[n], x.dest, p, b)
  }

  /** Every destination of a lease is a block of every layer of its load group. */
  ghost predicate LeasedInRange(w: Worker, groups: seq<seq<string>>, leases: seq<Lease>) {
    forall g: nat, i: nat, k: nat, x, n | g < |groups| && n in groups[g] && Leased(leases, g, i, k, x) ::
      DestInRange(w, n, x)
  }

  lemma LeasesInRange(w: Worker, groups: seq<seq<string>>, leases: seq<Lease>, targets: seq<seq<Target>>)
    requires |targets| == |groups| && forall g | 0 <= g < |groups| :: TargetsListed(leases, g, targets[g])
    ensures DestsInRange(w, groups, targets) <==> LeasedInRange(w, groups, leases)
  {
    if DestsInRange(w, groups, targets) {
      forall g: nat, i: nat, k: nat, x, n | g < |groups| && n in groups[g] && Leased(leases, g, i, k, x)
        ensures DestInRange(w, n, x)
      {
        TargetFrom(leases, g, targets[g], x);
        var m, j :| 0 <= m < |groups[g]| && groups[g][m] == n && 0 <= j < |targets[g]| && targets[g][j] == x;
        assert DestInRange(w, groups[g][m], targets[g][j]);
      }
    }
    if LeasedInRange(w, groups, leases) {
      forall g, k, j | 0 <= g < |groups| && 0 <= k < |groups[g]| && 0 <= j < |targets[g]|
        ensures DestInRange(w, groups[g][k], targets[g][j])
      {
        TargetFrom(leases, g, targets[g], targets[g][j]);
      }
    }
  }

  lemma LeasesLoaded(e: Env, log: set<Record>, before: Memory, after: Memory, w: Worker, rank: nat,
                     groups: seq<seq<string>>, leases: seq<Lease>, targets: seq<seq<Target>>)
    requires LoadedTargets(e, log, before, after, w, rank, groups, targets)
    requires forall g | 0 <= g < |groups| :: TargetsListed(leases, g, targets[g])
    ensures Loaded(e, log, before, after, w, rank, groups, leases)
  {
    forall g: nat, i: nat, k: nat, x, n | g < |groups| && n in groups[g] && Leased(leases, g, i, k, x)
      ensures Restored(e, log, after, w, rank, n, x)
    {
      TargetFrom(leases, g, targets[g], x);
      var m, j :| 0 <= m < |groups[g]| && groups[g][m] == n && 0 <= j < |targets[g]| && targets[g][j] == x;
      assert Restored(e, log, after, w, rank, groups[g][m], targets[g][j]);
    }
    forall b | 0 <= b < |after| && NotLeased(w, groups, leases, b) ensures after[b] == before[b] {
      NoTarget(w, groups, leases, targets, b);
    }
  }

  lemma NoTarget(w: Worker, groups: seq<seq<string>>, leases: seq<Lease>, targets: seq<seq<Target>>, b: nat)
    requires |targets| == |groups| && forall g | 0 <= g < |groups| :: TargetsListed(leases, g, targets[g])
    requires NotLeased(w, groups, leases, b)
    ensures Untargeted(w, groups, targets, b)
  {
    forall g, k, j, p: nat | 0 <= g < |groups| && 0 <= k < |groups[g]| && 0 <= j < |targets[g]|
                             && groups[g][k] in w.caches
      ensures !InPart(w.caches[groups[g][k]], targets[g][j].dest, p, b)
    {
      TargetFrom(leases, g, targets[g], targets[g][j]);
    }
  }

  /** The same in terms of the targets that were collected. */
  ghost predicate LoadedTargets(e: Env, log: set<Record>, before: Memory, after: Memory, w: Worker, rank: nat,
                         groups: seq<seq<string>>, targets: seq<seq<Target>>) {
    && |after| == |before| && |targets| == |groups|
    && (forall g, k, j | 0 <= g < |groups| && 0 <= k < |groups[g]| && 0 <= j < |targets[g]| ::
          Restored(e, log, after, w, rank, groups[g][k], targets[g][j]))
    && (forall x | 0 <= x < |after| && Untargeted(w, groups, targets, x) :: after[x] == before[x])
  }

  lemma LoadSound(e: Env, host: Host, delivered: set<Delivery>, log: set<Record>, w: Worker, rank: nat,
                  groups: seq<seq<string>>, targets: seq<seq<Target>>, layers: seq<LayerTransfer>, dev: Memory)
    requires Planned(e, host, delivered, log, w, rank, groups, targets, layers) && DeviceHolds(w, dev)
    requires Usable(layers) && InBlocks(layers)
    ensures AllFit(AllDescs(layers), dev, host)
    ensures LoadedTargets(e, log, dev, ToDevice(dev, host, AllDescs(layers)), w, rank, groups, targets)
  {
    var names, of :| Prepared(e, host, delivered, log, w, rank, groups, targets, layers, names, of)
        && Complete(groups, targets, names, of);
    LoadFits(e, host, delivered, log, w, rank, groups, targets, layers, names, of, dev);
    DescsFit(layers, dev, host);
    forall g, k, j | 0 <= g < |groups| && 0 <= k < |groups[g]| && 0 <= j < |targets[g]|
      ensures Restored(e, log, ToDevice(dev, host, AllDescs(layers)), w, rank, groups[g][k], targets[g][j])
    {
      LoadRestores(e, host, delivered, log, w, rank, groups, targets, layers, names, of, dev, g, k, j);
    }
    forall x | 0 <= x < |dev| && Untargeted(w, groups, targets, x)
      ensures ToDevice(dev, host, AllDescs(layers))[x] == dev[x]
    {
      LoadTouchesOnlyTargets(e.t, host, w, rank, groups, targets, layers, names, of, dev, x);
    }
  }

  lemma PlannedDests(e: Env, host: Host, delivered: set<Delivery>, log: set<Record>, w: Worker, rank: nat,
                     groups: seq<seq<string>>, targets: seq<seq<Target>>, layers: seq<LayerTransfer>)
    requires Planned(e, host, delivered, log, w, rank, groups, targets, layers)
    ensures |targets| == |groups| && (InBlocks(layers) <==> DestsInRange(w, groups, targets))
  {
    var names, of :| Prepared(e, host, delivered, log, w, rank, groups, targets, layers, names, of)
        && Complete(groups, targets, names, of);
    InBlocksExactly(e.t, w, rank, groups, targets, layers, names, of);
  }

  // ------------------------------------------------------------ which requests are refused

  /** The contexts are what an acceptable request asks for. */
  ghost predicate Asks(e: Env, device: nat, tpRank: nat, ppRank: nat, saves: seq<LayerSave>, resident: set<BlockKey>,
                       cs: seq<Context>)
    requires SoundEnv(e)
  {
    && device in e.workers && e.workers[device].tpRank == tpRank && e.workers[device].ppRank == ppRank
    && Resolvable(e.t, e.workers[device], saves) && cs == Contexts(e, e.workers[device], saves, resident)
    && ContextsListed(e.t, e.ns, e.workers[device], saves, resident, cs)
    && forall i | 0 <= i < |saves| :: Saveable(e.t, e.workers[device], saves[i])
  }

  ghost predicate NotAsked(e: Env, device: nat, tpRank: nat, ppRank: nat, saves: seq<LayerSave>,
                           resident: set<BlockKey>, error: SaveError)
    requires SoundEnv(e)
  {
    && SaveRefused(e, device, tpRank, ppRank, saves, resident)
    && RequestRefused(e, device, tpRank, ppRank, saves, error)
  }

  /** Why a save is refused: the first thing that is wrong with the request, the page condition, or lack of memory. */
  ghost predicate RefusedWith(e: Env, device: nat, tpRank: nat, ppRank: nat, saves: seq<LayerSave>,
                              resident: set<BlockKey>, error: SaveError)
    requires SoundEnv(e)
  {
    && (SaveRefused(e, device, tpRank, ppRank, saves, resident) || error == OutOfMemory
        || error == PageRefused(NoMemory))
    && if error == OutOfMemory then e.t.page.None?
       else if error.PageRefused? then e.t.page.Some?
       else RequestRefused(e, device, tpRank, ppRank, saves, error)
  }

  lemma NotAskedRefused(e: Env, device: nat, tpRank: nat, ppRank: nat, saves: seq<LayerSave>,
                        resident: set<BlockKey>, error: SaveError)
    requires SoundEnv(e) && NotAsked(e, device, tpRank, ppRank, saves, resident, error)
    ensures RefusedWith(e, device, tpRank, ppRank, saves, resident, error)
  {
  }

  lemma KeptOrRefused(e: Env, device: nat, tpRank: nat, ppRank: nat, saves: seq<LayerSave>, resident: set<BlockKey>,
                      cs: seq<Context>, r: Result<(), SaveError>)
    requires SoundEnv(e) && Asks(e, device, tpRank, ppRank, saves, resident, cs)
    requires r.Ok? ==> !PagesRefused(e, cs)
    requires r.Err? ==> r.error == OutOfMemory || r.error == PageRefused(NoMemory) || PagesRefused(e, cs)
    requires r.Err? ==> if r.error == OutOfMemory then e.t.page.None? else r.error.PageRefused? && e.t.page.Some?
    ensures r.Ok? ==> !SaveRefused(e, device, tpRank, ppRank, saves, resident)
    ensures r.Err? ==> RefusedWith(e, device, tpRank, ppRank, saves, resident, r.error)
  {
  }

  /** Checks a request and resolves it. */
  method AskedOf(e: Env, device: nat, tpRank: nat, ppRank: nat, saves: seq<LayerSave>, resident: set<BlockKey>)
    returns (r: Result<seq<Context>, SaveError>)
    requires SoundEnv(e)
    ensures r.Err? ==> NotAsked(e, device, tpRank, ppRank, saves, resident, r.error)
    ensures r.Ok? ==> Asks(e, device, tpRank, ppRank, saves, resident, r.value)
  {
    if device !in e.workers { return Err(WorkerMissing); }
    var w := e.workers[device];
    if w.tpRank != tpRank || w.ppRank != ppRank { return Err(WrongRank); }
    r := ResolveAll(e, e.t, e.ns, w, saves, resident);
    AllResolved(e.t, w, saves);
  }

  lemma RequestReady(e: Env, s: Snapshot, device: nat, saves: seq<LayerSave>, resident: set<BlockKey>)
    requires Consistent(e, s) && device in e.workers && Resolvable(e.t, e.workers[device], saves)
    ensures device in s.devices
    ensures Ready(e, e.workers[device], Contexts(e, e.workers[device], saves, resident), s.devices[device])
  {
    ContextsOk(e, e.workers[device], saves, resident);
  }

  /** The first thing that is wrong with a request. */
  ghost predicate RequestRefused(e: Env, device: nat, tpRank: nat, ppRank: nat, saves: seq<LayerSave>,
                                 error: SaveError) {
    if device !in e.workers then error == WorkerMissing
    else if e.workers[device].tpRank != tpRank || e.workers[device].ppRank != ppRank then error == WrongRank
    else exists i :: FirstRefused(e.t, e.workers[device], saves, i, error)
  }

  ghost predicate SaveRefused(e: Env, device: nat, tpRank: nat, ppRank: nat, saves: seq<LayerSave>,
                              resident: set<BlockKey>)
    requires SoundEnv(e)
  {
    || device !in e.workers || e.workers[device].tpRank != tpRank || e.workers[device].ppRank != ppRank
    || !Resolvable(e.t, e.workers[device], saves)
    || PagesRefused(e, Contexts(e, e.workers[device], saves, resident))
  }

  /** What is to be stored is not one whole shard of pages. */
  ghost predicate PagesRefused(e: Env, cs: seq<Context>)
    requires SoundEnv(e)
  {
    cs != [] && e.t.page.Some? && !OneWholeShard(e.t, cs)
  }

  /** Blocks with a destination in load group `g` have as many slots as the storage group of its layers. */
  ghost predicate SlotsFit(t: LayerTopology, names: seq<string>, l: Lease, g: nat)
    requires Shaped(t) && g < |l.targets| && |l.targets[g]| == |l.blocks|
  {
    forall k, n | 0 <= k < |l.blocks| && l.targets[g][k].Some? && n in names && InTopology(t, n) ::
      GroupTotalSlots(t, t.layerGroup[t.ids[n]]) == Ok(|l.blocks[k].1.slots|)
  }

  ghost predicate LeaseFits(t: LayerTopology, groups: seq<seq<string>>, l: Lease)
    requires Shaped(t)
  {
    LeaseShaped(l, |groups|) && forall g | 0 <= g < |groups| :: SlotsFit(t, groups[g], l, g)
  }

  ghost predicate Plannable(t: LayerTopology, w: Worker, rank: nat, groups: seq<seq<string>>, leases: seq<Lease>)
    requires Shaped(t)
  {
    && groups != [] && NamedOnce(groups)
    && (forall g | 0 <= g < |groups| :: OneStorageGroup(t, groups[g]) && AllLoadable(t, w, rank, groups[g]))
    && (forall i | 0 <= i < |leases| :: LeaseFits(t, groups, leases[i]))
  }

  /** The loads that are carried out. */
  ghost predicate Accepts(e: Env, device: nat, rank: nat, groups: seq<seq<string>>, leases: seq<Lease>)
    requires SoundEnv(e)
  {
    && device in e.workers && Plannable(e.t, e.workers[device], rank, groups, leases)
    && LeasedInRange(e.workers[device], groups, leases)
  }

  /** Why a load is refused. */
  ghost predicate LoadRefusedFor(e: Env, w: Worker, rank: nat, groups: seq<seq<string>>, leases: seq<Lease>,
                                 error: LoadError)
    requires SoundEnv(e)
  {
    match error
    case NoGroups => groups == []
    case RepeatedLayer => !NamedOnce(groups)
    case UnknownName => exists g | 0 <= g < |groups| :: !AllKnown(e.t, groups[g])
    case MixedStorageGroups => exists g | 0 <= g < |groups| :: !OneStorageGroup(e.t, groups[g])
    case GroupCount => exists i | 0 <= i < |leases| :: |leases[i].targets| != |groups|
    case BlockCount => exists i, g | 0 <= i < |leases| && 0 <= g < |leases[i].targets| ::
      |leases[i].targets[g]| != |leases[i].blocks|
    case SlotCount => exists i | 0 <= i < |leases| :: SlotsOff(e.t, groups, leases[i])
    case NotRegistered => exists g, n | 0 <= g < |groups| && n in groups[g] :: n !in w.caches
    case RankRange => rank >= e.t.tpSize
    case BadDestination => !LeasedInRange(w, groups, leases)
    case NoWorker => false
    case MissingSlot => false
  }

  /** A block of the lease has the wrong number of slots. */
  ghost predicate SlotsOff(t: LayerTopology, groups: seq<seq<string>>, l: Lease)
    requires Shaped(t)
  {
    && |l.targets| == |groups|
    && exists g | 0 <= g < |groups| :: |l.targets[g]| == |l.blocks| && !SlotsFit(t, groups[g], l, g)
  }

  lemma SlotsFitExactly(t: LayerTopology, names: seq<string>, found: Option<nat>, l: Lease, g: nat)
    requires Shaped(t) && GroupKnown(t, names, found) && (found.Some? ==> found.value < |t.groupCount|)
    requires g < |l.targets| && |l.targets[g]| == |l.blocks|
    ensures SlotsFit(t, names, l, g) <==>
            SlotsMatch(l, g, if found.Some? then Some(GroupTotalSlots(t, found.value).value) else None)
  {
    if found.Some? {
      var n := names[0];
      assert n in names && InTopology(t, n);
    }
  }

  lemma LeaseRefusedFor(e: Env, w: Worker, rank: nat, groups: seq<seq<string>>, found: seq<Option<nat>>,
                        leases: seq<Lease>, i: nat, error: LoadError)
    requires SoundEnv(e) && |found| == |groups| && i < |leases|
    requires forall g | 0 <= g < |groups| :: GroupKnown(e.t, groups[g], found[g])
    requires forall g | 0 <= g < |found| && found[g].Some? :: found[g].value < |e.t.groupCount|
    requires LeaseRefused(leases[i], Expected(e.t, found), error)
    ensures LoadRefusedFor(e, w, rank, groups, leases, error)
  {
    var l, expected := leases[i], Expected(e.t, found);
    if |l.targets| == |groups| {
      var g :| 0 <= g < |expected| && if |l.targets[g]| != |l.blocks| then error == BlockCount
                                      else error == SlotCount && !SlotsMatch(l, g, expected[g]);
      if |l.targets[g]| == |l.blocks| { SlotsFitExactly(e.t, groups[g], found[g], l, g); }
    }
  }

  lemma LeaseFitsExactly(t: LayerTopology, groups: seq<seq<string>>, found: seq<Option<nat>>, l: Lease)
    requires Shaped(t) && |found| == |groups| && forall g | 0 <= g < |groups| :: GroupKnown(t, groups[g], found[g])
    requires forall g | 0 <= g < |found| && found[g].Some? :: found[g].value < |t.groupCount|
    ensures LeaseOk(l, Expected(t, found)) <==> LeaseFits(t, groups, l)
  {
    var expected := Expected(t, found);
    if LeaseShaped(l, |groups|) {
      forall g | 0 <= g < |groups| ensures SlotsMatch(l, g, expected[g]) <==> SlotsFit(t, groups[g], l, g) {
        SlotsFitExactly(t, groups[g], found[g], l, g);
      }
    }
  }

  function Expected(t: LayerTopology, found: seq<Option<nat>>): (expected: seq<Option<nat>>)
    requires forall g | 0 <= g < |found| && found[g].Some? :: found[g].value < |t.groupCount|
    ensures |expected| == |found|
  {
    seq(|found|, g requires 0 <= g < |found| && (found[g].Some? ==> found[g].value < |t.groupCount|) =>
      if found[g].Some? then Some(GroupTotalSlots(t, found[g].value).value) else None)
  }

  lemma TargetsHonest(e: Env, log: set<Record>, sealed: seq<(BlockKey, SealedBlock)>, delivered: set<Delivery>,
                      inflight: Pending, groups: seq<seq<string>>, leases: seq<Lease>, found: seq<Option<nat>>,
                      expected: seq<Option<nat>>, targets: seq<seq<Target>>)
    requires SoundEnv(e) && HonestLeases(e, log, sealed, groups, leases) && Traced(inflight, sealed, delivered)
    requires |found| == |expected| == |targets| == |groups| && forall g | 0 <= g < |groups| ::
               GroupKnown(e.t, groups[g], found[g])
    requires forall g | 0 <= g < |groups| && found[g].Some? ::
               expected[g].Some? && GroupTotalSlots(e.t, found[g].value) == Ok(expected[g].value)
    requires forall i | 0 <= i < |leases| :: LeaseOk(leases[i], expected)
    requires forall g | 0 <= g < |groups| :: TargetsListed(leases, g, targets[g])
    ensures TargetsFor(e, delivered, log, groups, targets)
  {
    forall g | 0 <= g < |groups| ensures DistinctDests(targets[g]) {
      forall j, m | 0 <= j < m < |targets[g]| ensures targets[g][j].dest != targets[g][m].dest {
        TargetsDiffer(leases, g, targets[g], j, m);
      }
    }
    forall g, j | 0 <= g < |groups| && 0 <= j < |targets[g]|
      ensures SealedFrom(targets[g][j].block, targets[g][j].key, delivered)
    {
      var x := targets[g][j];
      TargetFrom(leases, g, targets[g], x);
      var i: nat, k: nat :| Leased(leases, g, i, k, x);
      assert leases[i].blocks[k] in sealed;
    }
    forall g, k, j | 0 <= g < |groups| && 0 <= k < |groups[g]| && 0 <= j < |targets[g]|
      ensures TargetKeyed(e, log, groups[g][k], targets[g][j])
    {
      var x := targets[g][j];
      TargetFrom(leases, g, targets[g], x);
      var i: nat, m: nat :| Leased(leases, g, i, m, x);
      TargetSlots(leases, g, expected, i, m, x);
      assert GroupKnown(e.t, groups[g], found[g]) && InTopology(e.t, groups[g][k]);
    }
  }

  /** Everything up to the copies; refuses exactly what cannot be loaded. */
  method PlanLoad(e: Env, w: Worker, rank: nat, groups: seq<seq<string>>, leases: seq<Lease>, ghost host: Host,
                  ghost delivered: set<Delivery>, ghost log: set<Record>, ghost sealed: seq<(BlockKey, SealedBlock)>)
    returns (r: Result<seq<LayerTransfer>, LoadError>, ghost targets: seq<seq<Target>>)
    requires Trusted(e, host, delivered, log) && KnownWorker(e, w) && LayersDisjoint(w)
    requires HonestLeases(e, log, sealed, groups, leases) && exists inflight :: Traced(inflight, sealed, delivered)
    ensures r.Err? ==> LoadRefusedFor(e, w, rank, groups, leases, r.error)
    ensures r.Ok? <==> Plannable(e.t, w, rank, groups, leases)
    ensures r.Ok? ==> Planned(e, host, delivered, log, w, rank, groups, targets, r.value)
    ensures r.Ok? ==>
              |targets| == |groups| && forall g | 0 <= g < |groups| :: TargetsListed(leases, g, targets[g])
  {
    targets := [];
    if groups == [] { return Err(NoGroups), targets; }
    var names := Flatten(groups);
    ElementsCount(names);
    NamedOnceExactly(groups);
    if |Elements(names)| != |names| { return Err(RepeatedLayer), targets; }
    var found := StorageGroups(e.t, groups);
    if found.Err? { return Err(found.error), targets; }
    forall g | 0 <= g < |groups| && found.value[g].Some? ensures found.value[g].value < |e.t.groupCount| {
      assert GroupKnown(e.t, groups[g], found.value[g]);
      assert groups[g][0] in groups[g];
    }
    var expected := Expected(e.t, found.value);
    forall i | 0 <= i < |leases| ensures LeaseOk(leases[i], expected) <==> LeaseFits(e.t, groups, leases[i]) {
      LeaseFitsExactly(e.t, groups, found.value, leases[i]);
    }
    var collected := CollectTargets(leases, expected);
    if collected.Err? {
      ghost var i :| 0 <= i < |leases| && LeaseRefused(leases[i], expected, collected.error);
      LeaseRefusedFor(e, w, rank, groups, found.value, leases, i, collected.error);
      return Err(collected.error), targets;
    }
    targets := collected.value;
    ghost var inflight :| Traced(inflight, sealed, delivered);
    TargetsHonest(e, log, sealed, delivered, inflight, groups, leases, found.value, expected, targets);
    var layers;
    ghost var of, loaded;
    layers, loaded, of := BuildLayers(e.t, w, rank, groups, collected.value);
    NeverMisses(e, delivered, log, groups, targets, rank);
    if layers.Err? { return Err(layers.error), targets; }
    assert Prepared(e, host, delivered, log, w, rank, groups, targets, layers.value, loaded, of);
    r := Ok(layers.value);
  }

  lemma NeverMisses(e: Env, delivered: set<Delivery>, log: set<Record>, groups: seq<seq<string>>,
                    targets: seq<seq<Target>>, rank: nat)
    requires SoundEnv(e) && TargetsFor(e, delivered, log, groups, targets)
    ensures !MissedSlot(e.t, rank, groups, targets)
  {
    forall g: nat, k: nat ensures !Misses(e.t, rank, groups, targets, g, k) {
      if g < |groups| && k < |groups[g]| && g < |targets| { NotMissed(e, delivered, log, groups, targets, rank, g, k); }
    }
  }

  lemma NotMissed(e: Env, delivered: set<Delivery>, log: set<Record>, groups: seq<seq<string>>,
                  targets: seq<seq<Target>>, rank: nat, g: nat, k: nat)
    requires SoundEnv(e) && TargetsFor(e, delivered, log, groups, targets) && g < |groups| && k < |groups[g]|
    ensures !Misses(e.t, rank, groups, targets, g, k)
  {
    var name := groups[g][k];
    if name in e.t.ids && SlotIndex(e.t, e.t.ids[name], rank).Ok? {
      var slot := SlotIndex(e.t, e.t.ids[name], rank).value;
      forall j | 0 <= j < |targets[g]| ensures slot < |targets[g][j].block.slots| {
        TargetFits(e, delivered, log, groups, targets, g, name, j, rank);
      }
    }
  }

  // ------------------------------------------------------------ the round trip

  /** A destination holds the bytes of every save that put this content into the block's slot. */
  lemma RestoresHeld(e: Env, host: Host, delivered: set<Delivery>, log: set<Record>,
                     now: Memory, v: Worker, rank: nat, name: string, x: Target, r: Record)
    requires Trusted(e, host, delivered, log) && Restored(e, log, now, v, rank, name, x)
    requires r in log && r.layer == e.t.ids[name] && HoldsInSlot(e, rank, name, x.block, r.raw)
    ensures DeviceImage(now, v.caches[name], x.dest) == r.image
  {
    var s :| s in log && RestoredFrom(e, now, v, rank, name, x, s);
    SameRawSameImage(e, host, r, s);
  }

  /**
   A block saved from one device and loaded on any device of the instance has the bytes it had, if the leased block
   holds what this save stored for it.
   */
  lemma RoundTrip(e: Env, host: Host, delivered: set<Delivery>, log: set<Record>,
                  w: Worker, cs: seq<Context>, stored: seq<seq<RawBlock>>, dev: Memory, i: nat, j: nat,
                  v: Worker, now: Memory, rank: nat, name: string, x: Target)
    requires Trusted(e, host, delivered, log) && Ready(e, w, cs, dev) && ShapedLike(cs, stored) && i < |cs|
             && j < |cs[i].blocks|
    requires NewRecord(e, w, cs, stored, dev, i, j) in log && Restored(e, log, now, v, rank, name, x)
    requires e.t.ids[name] == cs[i].layer && HoldsInSlot(e, rank, name, x.block, stored[i][j])
    ensures Layout.Sound(cs[i].layout) && cs[i].blocks[j].0 < cs[i].layout.numBlocks && InsideDevice(cs[i].layout, dev)
    ensures DeviceImage(now, v.caches[name], x.dest) == DeviceImage(dev, cs[i].layout, cs[i].blocks[j].0)
  {
    assert ContextOk(e, w, cs[i]);
    ContextLayout(e, w, cs[i]);
    RestoresHeld(e, host, delivered, log, now, v, rank, name, x, NewRecord(e, w, cs, stored, dev, i, j));
  }

  /** Ranks of a page-first instance that load one block get the same bytes, whatever each of them saved. */
  lemma RanksLoadAlike(e: Env, host: Host, delivered: set<Delivery>, log: set<Record>, name: string,
                       v: Worker, p: nat, mine: Memory, x: Target, w: Worker, q: nat, yours: Memory, y: Target)
    requires Trusted(e, host, delivered, log) && e.t.page.Some? && x.block == y.block
    requires Restored(e, log, mine, v, p, name, x) && Restored(e, log, yours, w, q, name, y)
    ensures DeviceImage(mine, v.caches[name], x.dest) == DeviceImage(yours, w.caches[name], y.dest)
  {
    var r := RestoredRecord(e, log, mine, v, p, name, x);
    var s := RestoredRecord(e, log, yours, w, q, name, y);
    SameRawSameImage(e, host, r, s);
  }

  lemma RestoredRecord(e: Env, log: set<Record>, now: Memory, v: Worker, rank: nat, name: string, x: Target)
    returns (r: Record)
    requires Restored(e, log, now, v, rank, name, x)
    ensures r in log && r.layer == e.t.ids[name] && HoldsInSlot(e, rank, name, x.block, r.raw)
    ensures DeviceImage(now, v.caches[name], x.dest) == r.image
  {
    r :| r in log && RestoredFrom(e, now, v, rank, name, x, r);
  }

  /** If all that was ever delivered for the key and slot is what save `r` stored, the destination has its bytes. */
  lemma OnlySaveRestored(e: Env, host: Host, delivered: set<Delivery>, log: set<Record>,
                         now: Memory, v: Worker, rank: nat, name: string, x: Target, r: Record)
    requires Trusted(e, host, delivered, log) && Restored(e, log, now, v, rank, name, x)
    requires SealedFrom(x.block, x.key, delivered) && r in log && r.layer == e.t.ids[name]
    requires forall d | d in delivered && d.0 == x.key && SlotIndex(e.t, r.layer, rank) == Ok(d.1) :: d.2 == r.raw
    ensures DeviceImage(now, v.caches[name], x.dest) == r.image
  {
    var s :| s in log && RestoredFrom(e, now, v, rank, name, x, s);
    var slot := SlotIndex(e.t, r.layer, rank).value;
    assert (x.key, slot, x.block.slots[slot]) in delivered;
    SameRawSameImage(e, host, r, s);
  }

  /**
   Whatever else was saved under the key: a load gives the bytes of save `r` exactly when the save in the slot has them.
   */
  lemma RoundTripExactly(e: Env, host: Host, delivered: set<Delivery>, log: set<Record>,
                         now: Memory, v: Worker, rank: nat, name: string, x: Target, held: Record, r: Record)
    requires Trusted(e, host, delivered, log) && Restored(e, log, now, v, rank, name, x)
    requires held in log && held.layer == e.t.ids[name] && HoldsInSlot(e, rank, name, x.block, held.raw)
    ensures DeviceImage(now, v.caches[name], x.dest) == r.image <==> held.image == r.image
  {
    RestoresHeld(e, host, delivered, log, now, v, rank, name, x, held);
  }

  // ------------------------------------------------------------ which keys a save uses

  lemma {:induction false} ContextHash(e: Env, w: Worker, saves: seq<LayerSave>, resident: set<BlockKey>, c: Context,
                                       b: (nat, Hash))
    requires SoundEnv(e) && Resolvable(e.t, w, saves) && c in Contexts(e, w, saves, resident) && b in c.blocks
    ensures exists i | 0 <= i < |saves| :: b.1 in saves[i].hashes
  {
    var n := |saves| - 1;
    if c in Contexts(e, w, saves[..n], resident) {
      ContextHash(e, w, saves[..n], resident, c, b);
      var i :| 0 <= i < n && b.1 in saves[..n][i].hashes;
      assert b.1 in saves[i].hashes;
    } else {
      var whole := Resolve(e.t, w, saves[n]).value;
      assert b in whole.blocks;
      var j :| 0 <= j < |whole.blocks| && whole.blocks[j] == b;
      assert b.1 == saves[n].hashes[j];
    }
  }

  /** A save records only keys of the content hashes it was given, for the storage groups of its layers. */
  lemma SavesKeyed(e: Env, w: Worker, saves: seq<LayerSave>, resident: set<BlockKey>, stored: seq<seq<RawBlock>>,
                   dev: Memory, hashes: iset<Hash>)
    requires SoundEnv(e) && Resolvable(e.t, w, saves)
    requires var cs := Contexts(e, w, saves, resident); Ready(e, w, cs, dev) && ShapedLike(cs, stored)
    requires forall i, h | 0 <= i < |saves| && h in saves[i].hashes :: h in hashes
    ensures KeyedBy(e, NewRecords(e, w, Contexts(e, w, saves, resident), stored, dev), hashes)
  {
    var cs := Contexts(e, w, saves, resident);
    forall r | r in NewRecords(e, w, cs, stored, dev) ensures exists a: Hash, g: nat :: KeyedAs(e, r, hashes, a, g) {
      var i: nat, j: nat :| i < |cs| && j < |cs[i].blocks| && r == NewRecord(e, w, cs, stored, dev, i, j);
      ContextHash(e, w, saves, resident, cs[i], cs[i].blocks[j]);
      RecordKeyed(e, w, cs, stored, dev, hashes, i, j);
    }
  }

  lemma RecordKeyed(e: Env, w: Worker, cs: seq<Context>, stored: seq<seq<RawBlock>>, dev: Memory, hashes: iset<Hash>,
                    i: nat, j: nat)
    requires SoundEnv(e) && Ready(e, w, cs, dev) && ShapedLike(cs, stored) && i < |cs| && j < |cs[i].blocks|
    requires cs[i].blocks[j].1 in hashes
    ensures exists a: Hash, g: nat :: KeyedAs(e, NewRecord(e, w, cs, stored, dev, i, j), hashes, a, g)
  {
    assert ContextOk(e, w, cs[i]);
    ContextLayout(e, w, cs[i]);
    assert KeyedAs(e, NewRecord(e, w, cs, stored, dev, i, j), hashes, cs[i].blocks[j].1, cs[i].group);
  }

  // ------------------------------------------------------------ a sealed instance is a sound environment

  ghost predicate RegisteredWorker(w: Worker, ssd: bool) {
    forall n | n in w.caches :: RegisteredLayout(w.caches[n], ssd) && GroupOf(w, n) <= U32_MAX
  }

  lemma SealedWorkers(e: Env, list: seq<Worker>, pageFirst: bool, ssd: bool)
    requires Lists(list, e.workers) && Seals(e.t, list, e.t.tpSize, pageFirst)
    requires forall d | d in e.workers :: e.workers[d].tpRank < e.t.tpSize && RegisteredWorker(e.workers[d], ssd)
    ensures forall d | d in e.workers :: WorkerOk(e, e.workers[d])
  {
    forall d | d in e.workers ensures WorkerOk(e, e.workers[d]) {
      var w := e.workers[d];
      assert Registration.Registered(e.workers, w) && w in list;
      forall n | n in w.caches ensures LayerOk(e, n, w.caches[n]) {
        assert HasLayer(list, n) && RegisteredWorker(w, ssd);
        RegisteredSound(w.caches[n], ssd);
      }
    }
  }

  lemma SealedHomogeneous(e: Env, list: seq<Worker>, ssd: bool)
    requires Lists(list, e.workers) && Agree(GeometryViews(list))
    requires forall d | d in e.workers :: RegisteredWorker(e.workers[d], ssd)
    ensures Homogeneous(e)
  {
    forall x: nat, l, m | LayoutOf(e, x, l) && LayoutOf(e, x, m)
      ensures l.segmentBytes == m.segmentBytes && l.segments == m.segments && l.seg.Split? == m.seg.Split?
    {
      var n := e.t.names[x];
      var c :| c in e.workers && RegisteredAs(e.workers[c], n, l);
      var d :| d in e.workers && RegisteredAs(e.workers[d], n, m);
      SameGeometry(e, list, c, d, n);
      assert RegisteredWorker(e.workers[c], ssd) && RegisteredWorker(e.workers[d], ssd);
      RegisteredSound(l, ssd);
      RegisteredSound(m, ssd);
      SameFactor(l.padded, l.segments, m.segments);
    }
  }

  lemma SameGeometry(e: Env, list: seq<Worker>, c: nat, d: nat, n: string)
    requires Lists(list, e.workers) && Agree(GeometryViews(list)) && c in e.workers && d in e.workers
    requires n in e.workers[c].caches && n in e.workers[d].caches
    ensures GeometryOf(e.workers[c].caches[n]) == GeometryOf(e.workers[d].caches[n])
  {
    assert Registration.Registered(e.workers, e.workers[c]) && Registration.Registered(e.workers, e.workers[d]);
    var i :| 0 <= i < |list| && list[i] == e.workers[c];
    var k :| 0 <= k < |list| && list[k] == e.workers[d];
    var views := GeometryViews(list);
    assert n in views[i] && n in views[k];
  }

  lemma SameFactor(a: nat, b: nat, c: nat)
    requires a > 0 && a * b == a * c
    ensures b == c
  {
    if b < c { MulGap(a, b, c); } else if c < b { MulGap(a, c, b); }
  }

  lemma SealedPages(t: LayerTopology, list: seq<Worker>)
    requires Verdict(list, t.tpSize, true).None? && Seals(t, list, t.tpSize, true)
    ensures Described(t) && |t.groupCount| == 1
  {
    PagesDescribed(t, list);
    PagesInOneGroup(list, t.tpSize);
    OneGroupUsed(t, list);
  }

  lemma PagesInOneGroup(list: seq<Worker>, tpSize: nat)
    requires Verdict(list, tpSize, true).None?
    ensures DenseGroups(list) && !exists g: nat | g > 0 :: UsedGroup(list, g)
  {
  }

  lemma OneGroupUsed(t: LayerTopology, list: seq<Worker>)
    requires CountsGroups(t, list) && DenseGroups(list) && !exists g: nat | g > 0 :: UsedGroup(list, g)
    ensures |t.groupCount| == 1
  {
    GroupsBeyondZero(t, list);
    var g: nat :| UsedGroup(list, g);
  }

  lemma PagesDescribed(t: LayerTopology, list: seq<Worker>)
    requires Seals(t, list, t.tpSize, true)
    ensures Described(t)
  {
    assert Describes(t.page.value, Shards(LayerSets(list, t.ids)), t.page.value.bytes);
  }

  lemma SealedGroups(e: Env, list: seq<Worker>, pageFirst: bool, ssd: bool)
    requires Lists(list, e.workers) && Seals(e.t, list, e.t.tpSize, pageFirst)
    requires forall d | d in e.workers :: RegisteredWorker(e.workers[d], ssd)
    ensures |e.t.groupCount| <= U32_MAX + 1
  {
    forall g: nat | UsedGroup(list, g) ensures g <= U32_MAX {
      var w, n :| w in list && n in w.caches && GroupOf(w, n) == g;
      assert Registration.Registered(e.workers, w);
    }
    if |e.t.groupCount| > 0 { assert UsedGroup(list, |e.t.groupCount| - 1); }
  }

  /** Sealing workers of one engine gives that engine everything it relies on. */
  lemma SealedIsSound(e: Env, pageFirst: bool, ssd: bool)
    requires SealedBy(e.t, e.workers, e.t.tpSize, pageFirst)
    requires forall d | d in e.workers :: e.workers[d].tpRank < e.t.tpSize && RegisteredWorker(e.workers[d], ssd)
    ensures SoundEnv(e)
  {
    var list :| Lists(list, e.workers) && Verdict(list, e.t.tpSize, pageFirst).None?
        && Seals(e.t, list, e.t.tpSize, pageFirst);
    SealedWorkers(e, list, pageFirst, ssd);
    SealedHomogeneous(e, list, ssd);
    SealedGroups(e, list, pageFirst, ssd);
    if e.t.page.Some? { SealedPages(e.t, list); }
  }
}
