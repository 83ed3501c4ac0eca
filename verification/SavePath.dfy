/** Saving blocks: from a request to host copies and the batches handed to the insert worker. */
module SavePath {
  import opened Common
  import opened Layout
  import opened Blocks
  import opened WritePath
  import opened Transfer
  import opened CopyDescs
  import opened Topology
  import opened Sealing
  import opened SaveTargets

  // ------------------------------------------------------------ keys

  function BigEndian(g: nat): seq<Byte>
    requires g <= U32_MAX
  {
    [g / 256 / 256 / 256, g / 256 / 256 % 256, g / 256 % 256, g % 256]
  }

  /** Group 0 keeps the content hash; other groups append their id. */
  function GroupHash(hash: Hash, group: nat): Hash
    requires group <= U32_MAX
  {
    if group == 0 then hash else hash + BigEndian(group)
  }

  lemma BigEndianInjective(g: nat, h: nat)
    requires g <= U32_MAX && h <= U32_MAX && BigEndian(g) == BigEndian(h)
    ensures g == h
  {
    var a, b := BigEndian(g), BigEndian(h);
    assert a[0] == b[0] && a[1] == b[1] && a[2] == b[2] && a[3] == b[3];
    assert g / 256 / 256 == h / 256 / 256;
    assert g / 256 == h / 256;
  }

  /** The group id is appended as four bytes, the most significant one first. */
  lemma GroupHashBytes(hash: Hash, group: nat)
    requires group <= U32_MAX
    ensures group == 0 ==> GroupHash(hash, group) == hash
    ensures group > 0 ==>
              var key := GroupHash(hash, group);
              && |key| == |hash| + 4 && key[..|hash|] == hash
              && 0x100_0000 * (key[|hash|] as int) + 0x1_0000 * (key[|hash|+1] as int)
                 + 0x100 * (key[|hash|+2] as int) + key[|hash|+3] as int == group
  {
  }

  /** When two (hash, group) pairs share a key: they are equal, or one hash is the other with its group appended. */
  lemma GroupHashExactly(a: Hash, g: nat, b: Hash, h: nat)
    requires g <= U32_MAX && h <= U32_MAX
    ensures GroupHash(a, g) == GroupHash(b, h) <==>
            (a == b && g == h) || (g > 0 && h == 0 && b == a + BigEndian(g))
                || (h > 0 && g == 0 && a == b + BigEndian(h))
  {
    if g > 0 && h > 0 && GroupHash(a, g) == GroupHash(b, h) {
      assert |a| == |b|;
      assert GroupHash(a, g)[..|a|] == a && GroupHash(b, h)[..|b|] == b;
      assert GroupHash(a, g)[|a|..] == BigEndian(g) && GroupHash(b, h)[|b|..] == BigEndian(h);
      BigEndianInjective(g, h);
    }
  }

  /** A hash that ends in another one's group collides with it. */
  lemma GroupHashCollides(a: Hash, g: nat)
    requires 0 < g <= U32_MAX
    ensures GroupHash(a, g) == GroupHash(a + BigEndian(g), 0) && a != a + BigEndian(g)
  {
    assert |a + BigEndian(g)| == |a| + 4;
  }

  /** No content hash is another one with a group in use appended. */
  ghost predicate KeysApart(hashes: iset<Hash>, groups: nat)
    requires groups <= U32_MAX + 1
  {
    forall a: Hash, g: nat | a in hashes && 0 < g < groups :: a + BigEndian(g) !in hashes
  }

  ghost predicate KeysDistinct(hashes: iset<Hash>, groups: nat)
    requires groups <= U32_MAX + 1
  {
    forall a, g: nat, b, h: nat | a in hashes && b in hashes && g < groups && h < groups
        && GroupHash(a, g) == GroupHash(b, h) ::
      a == b && g == h
  }

  /** That is exactly when keys tell all content hashes and storage groups apart. */
  lemma KeysApartExactly(hashes: iset<Hash>, groups: nat)
    requires groups <= U32_MAX + 1
    ensures KeysDistinct(hashes, groups) <==> KeysApart(hashes, groups)
  {
    if KeysDistinct(hashes, groups) {
      forall a: Hash, g: nat | a in hashes && 0 < g < groups
        ensures a + BigEndian(g) !in hashes
      {
        GroupHashCollides(a, g);
      }
    }
    if KeysApart(hashes, groups) {
      forall a, g: nat, b, h: nat | a in hashes && b in hashes && g < groups && h < groups
          && GroupHash(a, g) == GroupHash(b, h)
        ensures a == b && g == h
      {
        GroupHashExactly(a, g, b, h);
      }
    }
  }

  /** Hashes of one length are apart, and with a single storage group all hashes are. */
  lemma UsualKeysApart(hashes: iset<Hash>, groups: nat, length: nat)
    requires groups <= U32_MAX + 1
    requires groups <= 1 || forall a: Hash | a in hashes :: |a| == length
    ensures KeysApart(hashes, groups)
  {
    forall a: Hash, g: nat | a in hashes && 0 < g < groups ensures a + BigEndian(g) !in hashes {
      assert |a + BigEndian(g)| == |a| + 4;
    }
  }

  // ------------------------------------------------------------ the instance

  /** One sealed instance: its topology, its namespace and its workers by device. */
  datatype Env = Env(t: LayerTopology, ns: string, workers: map<nat, Worker>)

  /** `l` is how some worker registered `layer`. */
  ghost predicate LayoutOf(e: Env, layer: nat, l: KVCacheLayout) {
    layer < |e.t.names| && exists d | d in e.workers :: RegisteredAs(e.workers[d], e.t.names[layer], l)
  }

  predicate RegisteredAs(w: Worker, name: string, l: KVCacheLayout) { name in w.caches && w.caches[name] == l }

  ghost predicate Homogeneous(e: Env) {
    forall x: nat, l, m | LayoutOf(e, x, l) && LayoutOf(e, x, m) ::
      l.segmentBytes == m.segmentBytes && l.segments == m.segments && l.seg.Split? == m.seg.Split?
  }

  ghost predicate LayerOk(e: Env, n: string, l: KVCacheLayout) {
    && n in e.t.ids && SaveTargets.Registered(l)
    && (e.t.page.Some? ==> e.t.ids[n] < |e.t.page.value.bytes| && e.t.page.value.bytes[e.t.ids[n]] == PaddedBlock(l))
  }

  ghost predicate WorkerOk(e: Env, w: Worker) {
    w.tpRank < e.t.tpSize && forall n | n in w.caches :: LayerOk(e, n, w.caches[n])
  }

  /** What sealing and registration established. */
  ghost predicate SoundEnv(e: Env) {
    && Ranked(e.t) && Numbered(e.t.names, e.t.ids) && |e.t.groupCount| <= U32_MAX + 1
    && (forall d | d in e.workers :: WorkerOk(e, e.workers[d]))
    && Homogeneous(e)
    && (e.t.page.Some? ==> Described(e.t) && |e.t.groupCount| == 1)
  }

  /** Where a layer begins in its slot. */
  function StartFor(t: LayerTopology, layer: nat): nat
    requires Shaped(t) && layer < |t.names|
  {
    match t.page
    case Some(p) => p.offset[layer]
    case None => 0
  }

  // ------------------------------------------------------------ resolving a request

  datatype LayerSave = LayerSave(name: string, ids: seq<nat>, hashes: seq<Hash>)

  datatype SaveError =
    WorkerMissing | WrongRank | LengthMismatch | NoSuchLayer | NotOnDevice | BadSlot | BlockOutOfRange
    | PageRefused(why: PageRefusal) | OutOfMemory

  function Pairs(ids: seq<nat>, hashes: seq<Hash>): (r: seq<(nat, Hash)>)
    requires |ids| == |hashes|
    ensures |r| == |ids| && forall j | 0 <= j < |ids| :: r[j] == (ids[j], hashes[j])
  {
    if ids == [] then [] else Pairs(ids[..|ids|-1], hashes[..|hashes|-1]) + [(ids[|ids|-1], hashes[|hashes|-1])]
  }

  function Resolve(t: LayerTopology, w: Worker, s: LayerSave): Result<Context, SaveError>
    requires Shaped(t)
  {
    if |s.ids| != |s.hashes| then Err(LengthMismatch)
    else if s.name !in t.ids then Err(NoSuchLayer)
    else if s.name !in w.caches then Err(NotOnDevice)
    else
      var layer, l := t.ids[s.name], w.caches[s.name];
      var slot := SlotIndex(t, layer, w.tpRank);
      if slot.Err? then Err(BadSlot)
      else if exists j | 0 <= j < |s.ids| :: s.ids[j] >= l.numBlocks then Err(BlockOutOfRange)
      else Ok(Context(layer, l, slot.value, t.layerGroup[layer], Pairs(s.ids, s.hashes)))
  }

  /** A layer of a save on worker `w`. */
  ghost predicate ContextOk(e: Env, w: Worker, c: Context) {
    && Shaped(e.t) && c.layer < |e.t.names| && RegisteredAs(w, e.t.names[c.layer], c.layout)
    && SlotIndex(e.t, c.layer, w.tpRank) == Ok(c.slot) && c.group == e.t.layerGroup[c.layer]
    && |c.blocks| > 0
    && forall j | 0 <= j < |c.blocks| :: c.blocks[j].0 < c.layout.numBlocks
  }

  /** Blocks whose key is not resident yet. */
  function NotResident(blocks: seq<(nat, Hash)>, ns: string, group: nat, resident: set<BlockKey>): (r: seq<(nat, Hash)>)
    requires group <= U32_MAX
    ensures forall b | b in r :: b in blocks
  {
    if blocks == [] then []
    else
      var front := NotResident(blocks[..|blocks|-1], ns, group, resident);
      var b := blocks[|blocks|-1];
      if BlockKey(ns, GroupHash(b.1, group)) in resident then front else front + [b]
  }

  // ------------------------------------------------------------ what a request asks for

  /** A layer of the request can be saved. */
  ghost predicate Saveable(t: LayerTopology, w: Worker, s: LayerSave) {
    && |s.ids| == |s.hashes| && s.name in t.ids && s.name in w.caches
    && t.ids[s.name] < |t.names| && w.tpRank < t.tpSize
    && forall j | 0 <= j < |s.ids| :: s.ids[j] < w.caches[s.name].numBlocks
  }

  /** The first reason why it cannot. */
  ghost predicate RefusedFor(t: LayerTopology, w: Worker, s: LayerSave, error: SaveError) {
    if |s.ids| != |s.hashes| then error == LengthMismatch
    else if s.name !in t.ids then error == NoSuchLayer
    else if s.name !in w.caches then error == NotOnDevice
    else if t.ids[s.name] >= |t.names| || w.tpRank >= t.tpSize then error == BadSlot
    else error == BlockOutOfRange && exists j | 0 <= j < |s.ids| :: s.ids[j] >= w.caches[s.name].numBlocks
  }

  /** Block `j` of the layer is to be stored: its key is not resident. */
  ghost predicate Wanted(t: LayerTopology, ns: string, s: LayerSave, resident: set<BlockKey>, j: nat) {
    && j < |s.hashes| && s.name in t.ids && t.ids[s.name] < |t.layerGroup| && t.layerGroup[t.ids[s.name]] <= U32_MAX
    && BlockKey(ns, GroupHash(s.hashes[j], t.layerGroup[t.ids[s.name]])) !in resident
  }

  /** The blocks are those to be stored, at the positions `at` of the request, in its order. */
  ghost predicate TakenAt(t: LayerTopology, ns: string, s: LayerSave, resident: set<BlockKey>,
                          blocks: seq<(nat, Hash)>, at: seq<nat>) {
    && |at| == |blocks| && (forall k, m | 0 <= k < m < |at| :: at[k] < at[m])
    && (forall m | 0 <= m < |at| ::
          at[m] < |s.ids| && at[m] < |s.hashes| && blocks[m] == (s.ids[at[m]], s.hashes[at[m]]))
    && forall j: nat | j < |s.ids| :: j in at <==> Wanted(t, ns, s, resident, j)
  }

  /** The context of one layer of the request. */
  ghost predicate ContextFor(t: LayerTopology, ns: string, w: Worker, s: LayerSave, resident: set<BlockKey>,
                             c: Context) {
    && s.name in t.ids && s.name in w.caches && c.layer == t.ids[s.name] && c.layout == w.caches[s.name]
    && Shaped(t) && c.layer < |t.names| && SlotIndex(t, c.layer, w.tpRank) == Ok(c.slot)
    && c.group == t.layerGroup[c.layer]
    && exists at :: TakenAt(t, ns, s, resident, c.blocks, at)
  }

  /** Context `m` is that of layer `of[m]` of the request; layers with nothing to store have none. */
  ghost predicate ContextsAt(t: LayerTopology, ns: string, w: Worker, saves: seq<LayerSave>, resident: set<BlockKey>,
                             cs: seq<Context>, of: seq<nat>) {
    && |of| == |cs| && (forall k, m | 0 <= k < m < |of| :: of[k] < of[m])
    && (forall m | 0 <= m < |of| ::
          of[m] < |saves| && |cs[m].blocks| > 0 && ContextFor(t, ns, w, saves[of[m]], resident, cs[m]))
    && forall i: nat | i < |saves| && HasWanted(t, ns, saves[i], resident) :: i in of
  }

  ghost predicate ContextsListed(t: LayerTopology, ns: string, w: Worker, saves: seq<LayerSave>,
                                 resident: set<BlockKey>, cs: seq<Context>) {
    exists of :: ContextsAt(t, ns, w, saves, resident, cs, of)
  }

  lemma ResolvedExactly(t: LayerTopology, w: Worker, s: LayerSave)
    requires Shaped(t)
    ensures Resolve(t, w, s).Ok? <==> Saveable(t, w, s)
    ensures Resolve(t, w, s).Err? ==> RefusedFor(t, w, s, Resolve(t, w, s).error)
  {
  }

  ghost predicate FilteredAt(blocks: seq<(nat, Hash)>, ns: string, group: nat, resident: set<BlockKey>,
                             left: seq<(nat, Hash)>, at: seq<nat>)
    requires group <= U32_MAX
  {
    && |at| == |left| && (forall k, m | 0 <= k < m < |at| :: at[k] < at[m])
    && (forall m | 0 <= m < |at| :: at[m] < |blocks| && left[m] == blocks[at[m]])
    && forall j: nat | j < |blocks| :: j in at <==> Missing(ns, group, resident, blocks[j])
  }

  /** The block is not resident. */
  ghost predicate Missing(ns: string, group: nat, resident: set<BlockKey>, b: (nat, Hash))
    requires group <= U32_MAX
  {
    BlockKey(ns, GroupHash(b.1, group)) !in resident
  }

  lemma FilteredOut(blocks: seq<(nat, Hash)>, ns: string, group: nat, resident: set<BlockKey>,
                    left: seq<(nat, Hash)>, at: seq<nat>, b: (nat, Hash))
    requires group <= U32_MAX && FilteredAt(blocks, ns, group, resident, left, at) && !Missing(ns, group, resident, b)
    ensures FilteredAt(blocks + [b], ns, group, resident, left, at)
  {
  }

  lemma FilteredIn(blocks: seq<(nat, Hash)>, ns: string, group: nat, resident: set<BlockKey>,
                   left: seq<(nat, Hash)>, at: seq<nat>, b: (nat, Hash))
    requires group <= U32_MAX && FilteredAt(blocks, ns, group, resident, left, at) && Missing(ns, group, resident, b)
    ensures FilteredAt(blocks + [b], ns, group, resident, left + [b], at + [|blocks|])
  {
    var all, more := blocks + [b], at + [|blocks|];
    forall j: nat | j < |all| ensures j in more <==> Missing(ns, group, resident, all[j]) {
      if j < |blocks| { assert all[j] == blocks[j] && (j in more <==> j in at); }
    }
  }

  /** The blocks that are left are those that are not resident, as often and in the order given. */
  lemma {:induction false} NotResidentExactly(blocks: seq<(nat, Hash)>, ns: string, group: nat,
                                              resident: set<BlockKey>) returns (at: seq<nat>)
    requires group <= U32_MAX
    ensures FilteredAt(blocks, ns, group, resident, NotResident(blocks, ns, group, resident), at)
  {
    at := [];
    if blocks != [] {
      var front, b := blocks[..|blocks|-1], blocks[|blocks|-1];
      at := NotResidentExactly(front, ns, group, resident);
      assert blocks == front + [b];
      if Missing(ns, group, resident, b) {
        FilteredIn(front, ns, group, resident, NotResident(front, ns, group, resident), at, b);
        at := at + [|front|];
      } else {
        FilteredOut(front, ns, group, resident, NotResident(front, ns, group, resident), at, b);
      }
    }
  }

  lemma RemainingTaken(e: Env, w: Worker, s: LayerSave, resident: set<BlockKey>)
    requires SoundEnv(e) && Resolve(e.t, w, s).Ok? && Resolve(e.t, w, s).value.group <= U32_MAX
    ensures var c := Resolve(e.t, w, s).value;
            ContextFor(e.t, e.ns, w, s, resident, c.(blocks := NotResident(c.blocks, e.ns, c.group, resident)))
  {
    var c := Resolve(e.t, w, s).value;
    var left := NotResident(c.blocks, e.ns, c.group, resident);
    var at := NotResidentExactly(c.blocks, e.ns, c.group, resident);
    TakenFrom(e.t, e.ns, s, resident, c, left, at);
  }

  lemma TakenFrom(t: LayerTopology, ns: string, s: LayerSave, resident: set<BlockKey>, c: Context,
                  left: seq<(nat, Hash)>, at: seq<nat>)
    requires |s.ids| == |s.hashes| && c.blocks == Pairs(s.ids, s.hashes)
    requires s.name in t.ids && t.ids[s.name] < |t.layerGroup| && c.group == t.layerGroup[t.ids[s.name]] <= U32_MAX
    requires FilteredAt(c.blocks, ns, c.group, resident, left, at)
    ensures TakenAt(t, ns, s, resident, left, at)
  {
  }

  /** The layer has a block to be stored. */
  ghost predicate HasWanted(t: LayerTopology, ns: string, s: LayerSave, resident: set<BlockKey>) {
    exists j: nat :: Wanted(t, ns, s, resident, j)
  }

  lemma WantedTaken(t: LayerTopology, ns: string, w: Worker, s: LayerSave, resident: set<BlockKey>, c: Context)
    requires ContextFor(t, ns, w, s, resident, c) && |s.ids| == |s.hashes| && HasWanted(t, ns, s, resident)
    ensures c.blocks != []
  {
    var j: nat :| Wanted(t, ns, s, resident, j);
    var at: seq<nat> :| TakenAt(t, ns, s, resident, c.blocks, at);
    assert j in at;
  }

  /** A layer with nothing to store. */
  lemma SameContexts(t: LayerTopology, ns: string, w: Worker, saves: seq<LayerSave>, resident: set<BlockKey>,
                     cs: seq<Context>, of: seq<nat>)
    requires saves != [] && ContextsAt(t, ns, w, saves[..|saves|-1], resident, cs, of)
    requires !HasWanted(t, ns, saves[|saves|-1], resident)
    ensures ContextsAt(t, ns, w, saves, resident, cs, of)
  {
    var n := |saves| - 1;
    forall i: nat | i < |saves| && HasWanted(t, ns, saves[i], resident) ensures i in of {
      assert saves[..n][i] == saves[i];
    }
  }

  /** A layer with something to store. */
  lemma MoreContexts(t: LayerTopology, ns: string, w: Worker, saves: seq<LayerSave>, resident: set<BlockKey>,
                     cs: seq<Context>, of: seq<nat>, c: Context)
    requires saves != [] && ContextsAt(t, ns, w, saves[..|saves|-1], resident, cs, of)
    requires ContextFor(t, ns, w, saves[|saves|-1], resident, c) && |c.blocks| > 0
    ensures ContextsAt(t, ns, w, saves, resident, cs + [c], of + [|saves| - 1])
  {
    var n := |saves| - 1;
    forall i: nat | i < |saves| && HasWanted(t, ns, saves[i], resident) ensures i in of + [n] {
      if i < n { assert saves[..n][i] == saves[i]; }
    }
  }

  lemma NextListed(e: Env, w: Worker, saves: seq<LayerSave>, resident: set<BlockKey>, before: seq<Context>,
                   c: Context)
    requires saves != [] && ContextsListed(e.t, e.ns, w, saves[..|saves|-1], resident, before)
    requires ContextFor(e.t, e.ns, w, saves[|saves|-1], resident, c)
    requires |saves[|saves|-1].ids| == |saves[|saves|-1].hashes|
    ensures ContextsListed(e.t, e.ns, w, saves, resident, if c.blocks == [] then before else before + [c])
  {
    var s := saves[|saves|-1];
    var of :| ContextsAt(e.t, e.ns, w, saves[..|saves|-1], resident, before, of);
    if c.blocks == [] {
      if HasWanted(e.t, e.ns, s, resident) { WantedTaken(e.t, e.ns, w, s, resident, c); }
      SameContexts(e.t, e.ns, w, saves, resident, before, of);
    } else {
      MoreContexts(e.t, e.ns, w, saves, resident, before, of, c);
    }
  }

  /** The contexts of a request are what it asks for. */
  lemma {:induction false} ContextsExactly(e: Env, w: Worker, saves: seq<LayerSave>, resident: set<BlockKey>)
    requires SoundEnv(e) && Resolvable(e.t, w, saves)
    ensures ContextsListed(e.t, e.ns, w, saves, resident, Contexts(e, w, saves, resident))
  {
    if saves == [] {
      assert ContextsAt(e.t, e.ns, w, saves, resident, [], []);
    } else {
      var front, s := saves[..|saves|-1], saves[|saves|-1];
      ContextsExactly(e, w, front, resident);
      ResolvedGroup(e, w, s);
      RemainingTaken(e, w, s, resident);
      var c, before := Resolve(e.t, w, s).value, Contexts(e, w, front, resident);
      var kept := c.(blocks := NotResident(c.blocks, e.ns, c.group, resident));
      NextListed(e, w, saves, resident, before, kept);
      assert Contexts(e, w, saves, resident) == before + Remaining(e.t, e.ns, c, resident);
      assert Contexts(e, w, saves, resident) == if kept.blocks == [] then before else before + [kept];
    }
  }

  predicate Resolvable(t: LayerTopology, w: Worker, saves: seq<LayerSave>)
    requires Shaped(t)
  {
    forall i | 0 <= i < |saves| :: Resolve(t, w, saves[i]).Ok?
  }

  /** The resolved layer with its resident blocks left out; nothing when no block is left. */
  function Remaining(t: LayerTopology, ns: string, c: Context, resident: set<BlockKey>): seq<Context>
    requires c.group <= U32_MAX
  {
    var left := NotResident(c.blocks, ns, c.group, resident);
    if left == [] then [] else [c.(blocks := left)]
  }

  lemma ResolvedGroup(e: Env, w: Worker, s: LayerSave)
    requires SoundEnv(e) && Resolve(e.t, w, s).Ok?
    ensures Resolve(e.t, w, s).value.group <= U32_MAX
  {
  }

  /** The layers of a request that have blocks to store. */
  ghost function Contexts(e: Env, w: Worker, saves: seq<LayerSave>, resident: set<BlockKey>): seq<Context>
    requires SoundEnv(e) && Resolvable(e.t, w, saves)
  {
    if saves == [] then []
    else
      ResolvedGroup(e, w, saves[|saves|-1]);
      Contexts(e, w, saves[..|saves|-1], resident)
          + Remaining(e.t, e.ns, Resolve(e.t, w, saves[|saves|-1]).value, resident)
  }

  lemma {:induction false} ContextsOk(e: Env, w: Worker, saves: seq<LayerSave>, resident: set<BlockKey>)
    requires SoundEnv(e) && Resolvable(e.t, w, saves)
    ensures forall c | c in Contexts(e, w, saves, resident) :: ContextOk(e, w, c)
  {
    if saves != [] {
      var s := saves[|saves|-1];
      ContextsOk(e, w, saves[..|saves|-1], resident);
      ResolvedOk(e, w, s);
      var c := Resolve(e.t, w, s).value;
      var left := NotResident(c.blocks, e.ns, c.group, resident);
      if left != [] { StillOk(e, w, c, left); }
    }
  }

  lemma NextContext(e: Env, w: Worker, saves: seq<LayerSave>, i: nat, resident: set<BlockKey>)
    requires SoundEnv(e) && i < |saves| && Resolvable(e.t, w, saves[..i]) && Resolve(e.t, w, saves[i]).Ok?
    ensures Resolvable(e.t, w, saves[..i+1]) && Resolve(e.t, w, saves[i]).value.group <= U32_MAX
    ensures Contexts(e, w, saves[..i+1], resident) ==
              Contexts(e, w, saves[..i], resident) + Remaining(e.t, e.ns, Resolve(e.t, w, saves[i]).value, resident)
  {
    ResolvedGroup(e, w, saves[i]);
    var upTo := saves[..i+1];
    assert upTo[..i] == saves[..i] && upTo[i] == saves[i];
    forall k | 0 <= k < |upTo| ensures Resolve(e.t, w, upTo[k]).Ok? { if k < i { assert upTo[k] == saves[..i][k]; } }
  }

  /** Layer `i` is the first that cannot be saved. */
  ghost predicate FirstRefused(t: LayerTopology, w: Worker, saves: seq<LayerSave>, i: nat, error: SaveError) {
    && i < |saves| && (forall k | 0 <= k < i :: Saveable(t, w, saves[k])) && !Saveable(t, w, saves[i])
    && RefusedFor(t, w, saves[i], error)
  }

  /** Resolves every layer, leaves out resident blocks and then empty layers. */
  method ResolveEach(ghost e: Env, t: LayerTopology, ns: string, w: Worker, saves: seq<LayerSave>,
                     resident: set<BlockKey>)
    returns (r: Result<seq<Context>, SaveError>)
    requires SoundEnv(e) && e.t == t && e.ns == ns
    ensures r.Ok? <==> Resolvable(t, w, saves)
    ensures r.Ok? ==> r.value == Contexts(e, w, saves, resident)
    ensures r.Err? ==> exists i | 0 <= i < |saves| ::
              Resolvable(t, w, saves[..i]) && Resolve(t, w, saves[i]) == Err(r.error)
  {
    var cs: seq<Context> := [];
    for i := 0 to |saves|
      invariant Resolvable(t, w, saves[..i]) && cs == Contexts(e, w, saves[..i], resident)
    {
      var c := Resolve(t, w, saves[i]);
      if c.Err? { return Err(c.error); }
      NextContext(e, w, saves, i, resident);
      cs := cs + Remaining(t, ns, c.value, resident);
    }
    assert saves[..|saves|] == saves;
    r := Ok(cs);
  }

  lemma AllResolved(t: LayerTopology, w: Worker, saves: seq<LayerSave>)
    requires Shaped(t)
    ensures Resolvable(t, w, saves) <==> forall i | 0 <= i < |saves| :: Saveable(t, w, saves[i])
  {
    forall i | 0 <= i < |saves| ensures Resolve(t, w, saves[i]).Ok? <==> Saveable(t, w, saves[i]) {
      ResolvedExactly(t, w, saves[i]);
    }
  }

  lemma RefusedFirst(t: LayerTopology, w: Worker, saves: seq<LayerSave>, i: nat, error: SaveError)
    requires Shaped(t) && i < |saves| && Resolvable(t, w, saves[..i]) && Resolve(t, w, saves[i]) == Err(error)
    ensures FirstRefused(t, w, saves, i, error)
  {
    ResolvedExactly(t, w, saves[i]);
    AllResolved(t, w, saves[..i]);
    forall k | 0 <= k < i ensures Saveable(t, w, saves[k]) { assert saves[..i][k] == saves[k]; }
  }

  /**
   The contexts are those of the layers that have blocks to store, with these blocks, in the order of the request;
   the first layer that cannot be saved is the reason for an error.
   */
  method ResolveAll(ghost e: Env, t: LayerTopology, ns: string, w: Worker, saves: seq<LayerSave>,
                    resident: set<BlockKey>)
    returns (r: Result<seq<Context>, SaveError>)
    requires SoundEnv(e) && e.t == t && e.ns == ns
    ensures r.Ok? <==> forall i | 0 <= i < |saves| :: Saveable(t, w, saves[i])
    ensures r.Ok? ==> ContextsListed(t, ns, w, saves, resident, r.value)
    ensures r.Err? ==> exists i :: FirstRefused(t, w, saves, i, r.error)
    ensures r.Ok? ==> Resolvable(t, w, saves) && r.value == Contexts(e, w, saves, resident)
  {
    r := ResolveEach(e, t, ns, w, saves, resident);
    AllResolved(t, w, saves);
    if r.Ok? {
      ContextsExactly(e, w, saves, resident);
    } else {
      var i :| 0 <= i < |saves| && Resolvable(t, w, saves[..i]) && Resolve(t, w, saves[i]) == Err(r.error);
      RefusedFirst(t, w, saves, i, r.error);
    }
  }

  /** Everything of `ContextOk` but that there is a block left. */
  ghost predicate ContextSound(e: Env, w: Worker, c: Context) {
    && Shaped(e.t) && c.layer < |e.t.names| && RegisteredAs(w, e.t.names[c.layer], c.layout)
    && SlotIndex(e.t, c.layer, w.tpRank) == Ok(c.slot) && c.group == e.t.layerGroup[c.layer] <= U32_MAX
    && forall b | b in c.blocks :: b.0 < c.layout.numBlocks
  }

  lemma ResolvedOk(e: Env, w: Worker, s: LayerSave)
    requires SoundEnv(e) && Resolve(e.t, w, s).Ok?
    ensures ContextSound(e, w, Resolve(e.t, w, s).value)
  {
    var c := Resolve(e.t, w, s).value;
    IdOf(e.t.names, e.t.ids, s.name);
    forall b | b in c.blocks ensures b.0 < c.layout.numBlocks {
      var j :| 0 <= j < |c.blocks| && c.blocks[j] == b;
      assert b == (s.ids[j], s.hashes[j]);
    }
  }

  lemma StillOk(e: Env, w: Worker, c: Context, left: seq<(nat, Hash)>)
    requires ContextSound(e, w, c) && |left| > 0 && forall b | b in left :: b in c.blocks
    ensures ContextOk(e, w, c.(blocks := left))
  {
    forall j | 0 <= j < |left| ensures left[j].0 < c.layout.numBlocks {
      assert left[j] in left;
    }
  }

  // ------------------------------------------------------------ copies into fresh host memory

  /** The copies of a save fit, do not overlap, and touch nothing that `g` holds. */
  ghost predicate SaveReady(cs: seq<Context>, ts: seq<LayerTransfer>, dev: Memory, g: Host, h: Host) {
    && Matches(cs, ts) && Fitting(ts, dev, h) && ApartOnHosts(ts) && Extends(h, g)
    && forall c | ValidCoord(ts, c) :: DescAt(ts, c).alloc !in g
  }

  /** Device memory of `w` covers the regions it registered. */
  ghost predicate DeviceHolds(w: Worker, dev: Memory) { forall n | n in w.caches :: InsideDevice(w.caches[n], dev) }

  ghost predicate Ready(e: Env, w: Worker, cs: seq<Context>, dev: Memory) {
    && SoundEnv(e) && (exists d | d in e.workers :: e.workers[d] == w) && DeviceHolds(w, dev)
    && forall i | 0 <= i < |cs| :: ContextOk(e, w, cs[i])
  }

  lemma ContextLayout(e: Env, w: Worker, c: Context)
    requires SoundEnv(e) && (exists d | d in e.workers :: e.workers[d] == w) && ContextOk(e, w, c)
    ensures SaveTargets.Registered(c.layout) && c.group <= U32_MAX && LayoutOf(e, c.layer, c.layout)
    ensures e.t.page.Some? ==> Paged(e.t) && PageContext(e.t, c)
  {
    var d :| d in e.workers && e.workers[d] == w;
    var n := e.t.names[c.layer];
    assert RegisteredAs(e.workers[d], n, c.layout);
    assert WorkerOk(e, e.workers[d]) && LayerOk(e, n, c.layout);
    assert e.t.ids[n] == c.layer;
  }

  lemma LayerFirstReady(e: Env, w: Worker, cs: seq<Context>, ts: seq<LayerTransfer>, dev: Memory, marks: seq<Host>)
    requires Ready(e, w, cs, dev) && Matches(cs, ts) && PlacedInTurn(ts, marks)
    ensures SaveReady(cs, ts, dev, marks[0], marks[|ts|])
  {
    var g, h := marks[0], marks[|ts|];
    LayerFirstApart(ts, marks);
    MarksGrow(ts, marks, 0, |ts|);
    forall i | 0 <= i < |ts| ensures FittingLayer(ts[i], dev, h) && LayerInBlocks(ts[i], |ts[i].blocks|) {
      assert MatchesOne(cs[i], ts[i]) && ContextOk(e, w, cs[i]);
      ContextLayout(e, w, cs[i]);
      forall j | 0 <= j < |ts[i].blocks| ensures FittingBlock(ts[i].layout, ts[i].blocks[j], h) {
        BlockPlaced(ts, marks, i, j);
      }
    }
    forall c | ValidCoord(ts, c) ensures DescAt(ts, c).alloc !in g {
      BlockPlaced(ts, marks, c.layer, c.block);
      DescOnHost(ts, c);
      MarksGrow(ts, marks, 0, c.layer);
      PartAlloc(ts[c.layer].blocks[c.block].host.block, ts[c.layer].layout.segmentBytes, c.part);
    }
  }

  lemma PageFirstReady(e: Env, w: Worker, cs: seq<Context>, ts: seq<LayerTransfer>, dev: Memory, pages: seq<nat>,
                       g: Host, h: Host)
    requires Ready(e, w, cs, dev) && PagesCut(e.t, cs, pages, ts, g, h) && Extends(h, g)
    ensures SaveReady(cs, ts, dev, g, h)
  {
    PageFirstApart(e.t, cs, pages, ts, g, h);
    forall i | 0 <= i < |ts| ensures FittingLayer(ts[i], dev, h) && LayerInBlocks(ts[i], |ts[i].blocks|) {
      assert MatchesOne(cs[i], ts[i]) && ContextOk(e, w, cs[i]);
      ContextLayout(e, w, cs[i]);
      forall j | 0 <= j < |ts[i].blocks| ensures FittingBlock(ts[i].layout, ts[i].blocks[j], h) {
        PieceOf(e.t, cs, pages, ts, g, h, i, j);
        PieceRoom(e.t, cs[i], h, pages[j]);
      }
    }
    forall c | ValidCoord(ts, c) ensures DescAt(ts, c).alloc !in g { PieceDesc(e.t, cs, pages, ts, g, h, c); }
  }

  /** A save changes no memory that was allocated before it. */
  lemma OldMemoryKept(cs: seq<Context>, ts: seq<LayerTransfer>, dev: Memory, g: Host, h: Host)
    requires SaveReady(cs, ts, dev, g, h)
    ensures AllFit(AllDescs(ts), dev, h) && Extends(ToHost(dev, h, AllDescs(ts)), g)
  {
    DescsFit(ts, dev, h);
    var after := ToHost(dev, h, AllDescs(ts));
    forall a | a in g ensures a in after && after[a] == g[a] {
      assert a in h && h[a] == g[a];
      forall x | 0 <= x < |g[a]| ensures after[a][x] == g[a][x] { SaveLeaves(ts, dev, h, a, x); }
      assert |after[a]| == |h[a]|;
    }
  }

  // ------------------------------------------------------------ what a save records

  /** The bytes of `layer` that rank `rank` saved under `key`; they are in `raw`, laid out as `layout` says. */
  datatype Record = Record(key: BlockKey, layer: nat, rank: nat, raw: RawBlock, layout: KVCacheLayout, image: Memory)

  /** The host still holds what was recorded. */
  ghost predicate Intact(e: Env, host: Host, r: Record) {
    && Shaped(e.t) && LayoutOf(e, r.layer, r.layout)
    && HasRoom(host, r.layout, r.raw, StartFor(e.t, r.layer))
    && HostImage(host, r.layout, r.raw, StartFor(e.t, r.layer)) == r.image
  }

  lemma IntactKept(e: Env, g: Host, h: Host, r: Record)
    requires Intact(e, g, r) && Extends(h, g)
    ensures Intact(e, h, r)
  {
    var start := StartFor(e.t, r.layer);
    forall p: nat | p < NumRanges(r.layout)
      ensures var (alloc, offset) := HostPart(r.raw, start, r.layout.segmentBytes, p);
              alloc in h && h[alloc] == g[alloc]
    {
      var (alloc, offset) := HostPart(r.raw, start, r.layout.segmentBytes, p);
    }
    assert HasRoom(h, r.layout, r.raw, start);
    assert HostPartBytes(h, r.layout, r.raw, start, 0) == HostPartBytes(g, r.layout, r.raw, start, 0);
    if r.layout.seg.Split? {
      assert HostPartBytes(h, r.layout, r.raw, start, 1) == HostPartBytes(g, r.layout, r.raw, start, 1);
    }
  }

  function KeyOf(ns: string, c: Context, j: nat): BlockKey
    requires j < |c.blocks| && c.group <= U32_MAX
  {
    BlockKey(ns, GroupHash(c.blocks[j].1, c.group))
  }

  /** For a delivered slot content, the bytes of every layer of its storage group that is read from it are on record. */
  ghost predicate Recorded(e: Env, log: set<Record>, d: Delivery)
    requires Shaped(e.t)
  {
    exists g: nat :: RecordedAs(e, log, d, g)
  }

  ghost predicate RecordedAs(e: Env, log: set<Record>, d: Delivery, g: nat)
    requires Shaped(e.t)
  {
    && SavedFor(e, log, d.0, g)
    && forall x: nat, rank: nat |
         x < |e.t.names| && e.t.layerGroup[x] == g && SlotIndex(e.t, x, rank) == Ok(d.1) :: OnRecord(e, log, d, x, rank)
  }

  /** Some save of storage group `g` used this key. */
  ghost predicate SavedFor(e: Env, log: set<Record>, key: BlockKey, g: nat) {
    exists r | r in log :: OfGroup(e, r, key, g)
  }

  ghost predicate OfGroup(e: Env, r: Record, key: BlockKey, g: nat) {
    r.key == key && r.layer < |e.t.layerGroup| && e.t.layerGroup[r.layer] == g
  }

  ghost predicate OnRecord(e: Env, log: set<Record>, d: Delivery, layer: nat, rank: nat) {
    exists r | r in log :: r.key == d.0 && r.raw == d.2 && r.layer == layer && (RankKept(e.t) ==> r.rank == rank)
  }

  // ------------------------------------------------------------ what is handed to the insert worker

  /** The same host bytes, seen from two blocks. */
  ghost predicate SamePlace(l: KVCacheLayout, raw: RawBlock, start: nat, piece: RawBlock) {
    && |raw.segments| > 0 && |piece.segments| > 0
    && forall p: nat | p < NumRanges(l) ::
      HostPart(raw, start, l.segmentBytes, p) == HostPart(piece, 0, l.segmentBytes, p)
  }

  ghost predicate ShapedLike(cs: seq<Context>, stored: seq<seq<RawBlock>>) {
    |stored| == |cs| && forall i | 0 <= i < |cs| :: |stored[i]| == |cs[i].blocks|
  }

  /** `stored[i][j]` is the slot content that holds block `j` of layer `i`, where its copy put it. */
  ghost predicate Stores(t: LayerTopology, cs: seq<Context>, ts: seq<LayerTransfer>, stored: seq<seq<RawBlock>>) {
    && Shaped(t) && Matches(cs, ts) && ShapedLike(cs, stored)
    && forall i | 0 <= i < |cs| :: StoresLayer(t, cs[i], ts[i], stored[i])
  }

  ghost predicate StoresLayer(t: LayerTopology, c: Context, lt: LayerTransfer, raws: seq<RawBlock>)
    requires Shaped(t)
  {
    && c.layer < |t.names| && MatchesOne(c, lt) && |raws| == |c.blocks|
    && forall j | 0 <= j < |raws| :: SamePlace(c.layout, raws[j], StartFor(t, c.layer), lt.blocks[j].host.block)
  }

  lemma SamePlaceSameBytes(h: Host, l: KVCacheLayout, raw: RawBlock, start: nat, piece: RawBlock)
    requires SamePlace(l, raw, start, piece) && HasRoom(h, l, piece, 0)
    ensures HasRoom(h, l, raw, start) && HostImage(h, l, raw, start) == HostImage(h, l, piece, 0)
  {
    forall p: nat | p < NumRanges(l)
      ensures HostPart(raw, start, l.segmentBytes, p) == HostPart(piece, 0, l.segmentBytes, p) {}
  }

  ghost function NewRecord(e: Env, w: Worker, cs: seq<Context>, stored: seq<seq<RawBlock>>, dev: Memory, i: nat,
                           j: nat): Record
    requires Ready(e, w, cs, dev) && ShapedLike(cs, stored) && i < |cs| && j < |cs[i].blocks|
  {
    assert ContextOk(e, w, cs[i]);
    ContextLayout(e, w, cs[i]);
    Record(KeyOf(e.ns, cs[i], j), cs[i].layer, w.tpRank, stored[i][j], cs[i].layout,
           DeviceImage(dev, cs[i].layout, cs[i].blocks[j].0))
  }

  /** After the copies the host holds what the records say. */
  lemma NewIntact(e: Env, w: Worker, cs: seq<Context>, ts: seq<LayerTransfer>, stored: seq<seq<RawBlock>>, dev: Memory,
                  g: Host, h: Host, i: nat, j: nat)
    requires Ready(e, w, cs, dev) && SaveReady(cs, ts, dev, g, h) && Stores(e.t, cs, ts, stored)
    requires i < |cs| && j < |cs[i].blocks|
    ensures AllFit(AllDescs(ts), dev, h)
    ensures Intact(e, ToHost(dev, h, AllDescs(ts)), NewRecord(e, w, cs, stored, dev, i, j))
  {
    DescsFit(ts, dev, h);
    var after := ToHost(dev, h, AllDescs(ts));
    assert MatchesOne(cs[i], ts[i]) && StoresLayer(e.t, cs[i], ts[i], stored[i]) && ContextOk(e, w, cs[i]);
    ContextLayout(e, w, cs[i]);
    SaveMoves(ts, dev, h, i, j);
    SamePlaceSameBytes(after, cs[i].layout, stored[i][j], StartFor(e.t, cs[i].layer), ts[i].blocks[j].host.block);
  }

  /** Page-first: one save writes all layers of the page, so all layers share it. */
  ghost predicate WholePages(t: LayerTopology, cs: seq<Context>, stored: seq<seq<RawBlock>>) {
    t.page.Some? ==>
      && Paged(t) && |cs| > 0 && OneWholeShard(t, cs) && |stored| == |cs|
      && forall i | 0 <= i < |cs| :: stored[i] == stored[0]
  }

  ghost predicate LogsAll(e: Env, w: Worker, cs: seq<Context>, stored: seq<seq<RawBlock>>, dev: Memory,
                          log: set<Record>)
    requires Ready(e, w, cs, dev) && ShapedLike(cs, stored)
  {
    forall i, j | 0 <= i < |cs| && 0 <= j < |cs[i].blocks| :: NewRecord(e, w, cs, stored, dev, i, j) in log
  }

  ghost function DeliveryOf(e: Env, cs: seq<Context>, stored: seq<seq<RawBlock>>, i: nat, j: nat): Delivery
    requires ShapedLike(cs, stored) && i < |cs| && j < |cs[i].blocks| && cs[i].group <= U32_MAX
  {
    (KeyOf(e.ns, cs[i], j), cs[i].slot, stored[i][j])
  }

  /** Whatever a save delivers for a slot, the bytes of every layer read from that slot are on record. */
  lemma DeliveryRecorded(e: Env, w: Worker, cs: seq<Context>, stored: seq<seq<RawBlock>>, dev: Memory,
                         log: set<Record>, i: nat, j: nat)
    requires Ready(e, w, cs, dev) && ShapedLike(cs, stored) && WholePages(e.t, cs, stored)
             && LogsAll(e, w, cs, stored, dev, log)
    requires i < |cs| && j < |cs[i].blocks|
    ensures cs[i].group <= U32_MAX && Recorded(e, log, DeliveryOf(e, cs, stored, i, j))
  {
    var c := cs[i];
    assert ContextOk(e, w, c);
    ContextLayout(e, w, c);
    var d := DeliveryOf(e, cs, stored, i, j);
    forall x: nat, rank: nat | x < |e.t.names| && e.t.layerGroup[x] == c.group && SlotIndex(e.t, x, rank) == Ok(d.1)
      ensures OnRecord(e, log, d, x, rank)
    {
      if e.t.page.None? {
        SlotInjective(e.t, x, rank, c.layer, w.tpRank);
        assert NewRecord(e, w, cs, stored, dev, i, j) in log;
      } else {
        PageOnRecord(e, w, cs, stored, dev, log, i, j, x, rank);
      }
    }
    assert OfGroup(e, NewRecord(e, w, cs, stored, dev, i, j), d.0, c.group);
    assert RecordedAs(e, log, d, c.group);
  }

  lemma PageOnRecord(e: Env, w: Worker, cs: seq<Context>, stored: seq<seq<RawBlock>>, dev: Memory, log: set<Record>,
                     i: nat, j: nat, x: nat, rank: nat)
    requires Ready(e, w, cs, dev) && ShapedLike(cs, stored) && WholePages(e.t, cs, stored)
             && LogsAll(e, w, cs, stored, dev, log)
    requires i < |cs| && j < |cs[i].blocks| && cs[i].group <= U32_MAX && e.t.page.Some?
    requires x < |e.t.names| && SlotIndex(e.t, x, rank) == Ok(cs[i].slot)
    ensures OnRecord(e, log, DeliveryOf(e, cs, stored, i, j), x, rank)
  {
    var k := PageMate(e, w, cs, stored, dev, i, x, rank);
    var r := NewRecord(e, w, cs, stored, dev, k, j);
    assert r in log && r.key == KeyOf(e.ns, cs[i], j) && r.raw == stored[i][j];
  }

  /** The context of layer `x` in a save of the page that layer `i` is in: the same blocks in the same pages. */
  lemma PageMate(e: Env, w: Worker, cs: seq<Context>, stored: seq<seq<RawBlock>>, dev: Memory, i: nat, x: nat,
                 rank: nat) returns (k: nat)
    requires Ready(e, w, cs, dev) && ShapedLike(cs, stored) && WholePages(e.t, cs, stored) && e.t.page.Some?
    requires i < |cs| && x < |e.t.names| && SlotIndex(e.t, x, rank) == Ok(cs[i].slot)
    ensures k < |cs| && cs[k].layer == x && cs[k].blocks == cs[i].blocks && stored[k] == stored[i]
    ensures cs[k].group == cs[i].group
  {
    assert cs[i].slot == cs[0].slot;
    assert HasContext(cs, x);
    k :| 0 <= k < |cs| && cs[k].layer == x;
    assert ContextOk(e, w, cs[k]) && ContextOk(e, w, cs[i]);
    assert cs[k].group == 0 == cs[i].group;
  }
}
