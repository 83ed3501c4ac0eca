/**
 The block directory under concurrency. Every step below is one section that the store runs under
 a block guard, a node guard or on the atomic flag; a run is any interleaving of such steps.
 */
module DirectoryProtocol {
  import opened Common
  import opened Directory

  /** What a block scan keeps: records of live sessions (of every node or of one), young records, nothing. */
  datatype Filter = LiveSessions | LiveSessionsOf(node: Node) | Younger(now: nat, maxAge: nat) | Nothing

  predicate Keeps(f: Filter, nodes: Nodes, n: Node, o: OwnerRecord) {
    match f
    case LiveSessions => Current(nodes, n, o)
    case LiveSessionsOf(node) => n != node || Current(nodes, n, o)
    case Younger(now, maxAge) => Age(now, o.registered) <= maxAge
    case Nothing => false
  }

  /** The scan removes every record of `n` whose session has been superseded. */
  predicate DropsStale(f: Filter, n: Node) {
    match f
    case LiveSessions => true
    case LiveSessionsOf(node) => n == node
    case Younger(_, _) => false
    case Nothing => true
  }

  /** Where a call in progress stands between two of its steps. */
  datatype Activity =
    | Takeover(node: Node, id: Session, now: nat)              // flag set, node guard still held
    | Insert(node: Node, id: Session, now: nat, keys: seq<BlockKey>)
    | Remove(node: Node, id: Session, keys: seq<BlockKey>)
    | SweepNodes(reconcile: bool, now: nat, removed: nat, unseen: set<Node>)
    | ClearNodes(unseen: set<Node>)
    | Scan(filter: Filter, todo: set<BlockKey>)
    | ScanKey(filter: Filter, todo: set<BlockKey>, key: BlockKey, left: set<Node>)  // block guard held

  datatype State = State(
    cfg: Config,
    clock: nat,
    blocks: Blocks,
    nodes: Nodes,
    reconcile: bool,
    counters: Counters,
    heldNodes: set<Node>,                    // node guards held between steps
    guarded: map<BlockKey, set<Node>>,       // block guards held between steps, with the owners counted so far
    active: map<nat, Activity>
  )

  function Init(cfg: Config): State {
    State(cfg, 0, map[], map[], false, Counters(0, 0, 0, 0, 0, false), {}, map[], map[])
  }

  datatype Step =
    | Tick(delta: nat)
    | Heartbeat(t: nat, node: Node, id: Session, now: nat)
    | TakeoverWrite(t: nat)
    | SetInstance(node: Node, id: Session, hasInstance: bool)
    | BeginInsert(t: nat, node: Node, id: Session, keys: seq<BlockKey>)
    | InsertOne(t: nat)
    | BeginRemove(t: nat, node: Node, id: Session, keys: seq<BlockKey>)
    | RemoveOne(t: nat)
    | Unregister(t: nat, node: Node, id: Session)
    | SweepSwap(t: nat)
    | SweepNode(t: nat, node: Node)
    | SweepDecide(t: nat)
    | Cleanup(t: nat, maxAge: nat)
    | BeginClear(t: nat)
    | ClearNode(t: nat, node: Node)
    | ClearDone(t: nat)
    | TakeGuard(t: nat, key: BlockKey)
    | VisitOwner(t: nat, node: Node)
    | DropGuard(t: nat)
    | EndScan(t: nat)

  ghost predicate Enabled(s: State, step: Step) {
    match step
    case Tick(_) => true
    case Heartbeat(t, node, _, now) => t !in s.active && node !in s.heldNodes && now <= s.clock
    case TakeoverWrite(t) => t in s.active && s.active[t].Takeover?
    case SetInstance(node, _, _) => node !in s.heldNodes
    case BeginInsert(t, node, _, _) => t !in s.active && node !in s.heldNodes
    case InsertOne(t) =>
      && t in s.active && s.active[t].Insert?
      && (s.active[t].keys != [] ==> s.active[t].keys[0] !in s.guarded && s.active[t].node !in s.heldNodes)
    case BeginRemove(t, node, _, _) => t !in s.active && node !in s.heldNodes
    case RemoveOne(t) =>
      && t in s.active && s.active[t].Remove?
      && (s.active[t].keys != [] ==> s.active[t].keys[0] !in s.guarded)
    case Unregister(t, node, _) => t !in s.active && node !in s.heldNodes
    case SweepSwap(t) => t !in s.active
    case SweepNode(t, node) => t in s.active && s.active[t].SweepNodes? && node !in s.heldNodes
    case SweepDecide(t) => t in s.active && s.active[t].SweepNodes? && s.active[t].unseen == {}
    case Cleanup(t, _) => t !in s.active
    case BeginClear(t) => t !in s.active
    case ClearNode(t, node) => t in s.active && s.active[t].ClearNodes? && node !in s.heldNodes
    case ClearDone(t) => t in s.active && s.active[t].ClearNodes? && s.active[t].unseen == {}
    case TakeGuard(t, key) => t in s.active && s.active[t].Scan? && key !in s.guarded
    case VisitOwner(t, node) =>
      && t in s.active && s.active[t].ScanKey? && node in s.active[t].left && node !in s.heldNodes
    case DropGuard(t) => t in s.active && s.active[t].ScanKey? && s.active[t].left == {}
    case EndScan(t) => t in s.active && s.active[t].Scan? && s.active[t].todo == {}
  }

  function Became(s: State, t: nat, a: Activity): State { s.(active := s.active[t := a]) }

  function Finished(s: State, t: nat): State { s.(active := s.active - {t}) }

  function AfterHeartbeat(s: State, t: nat, node: Node, id: Session, now: nat): State {
    if node !in s.nodes then
      s.(nodes := s.nodes[node := NodeRecord(id, now, Some(now))])
    else
      var r := s.nodes[node];
      if r.session == id then s.(nodes := s.nodes[node := r.(lastSeen := now)])
      else if Age(now, r.lastSeen) > s.cfg.staleAfter then
        s.(reconcile := true, heldNodes := s.heldNodes + {node}, active := s.active[t := Takeover(node, id, now)])
      else s
  }

  function AfterTakeoverWrite(s: State, t: nat): State
    requires t in s.active && s.active[t].Takeover?
  {
    var a := s.active[t];
    Finished(s, t).(nodes := s.nodes[a.node := NodeRecord(a.id, a.now, Some(a.now))],
                    heldNodes := s.heldNodes - {a.node})
  }

  function AfterSetInstance(s: State, node: Node, id: Session, hasInstance: bool): State {
    if node !in s.nodes || s.nodes[node].session != id then s
    else
      var r := s.nodes[node];
      var idle := if hasInstance then None else if r.idleSince.None? then Some(s.clock) else r.idleSince;
      s.(nodes := s.nodes[node := r.(idleSince := idle)])
  }

  /** `touch_node_session`, the first step of an insert or remove call; other sessions are refused. */
  function AfterBegin(s: State, t: nat, node: Node, id: Session, call: Activity): State {
    if node !in s.nodes || s.nodes[node].session != id then s
    else Became(s, t, call).(nodes := s.nodes[node := s.nodes[node].(lastSeen := s.clock)])
  }

  function AfterInsertOne(s: State, t: nat): State
    requires t in s.active && s.active[t].Insert?
  {
    var a := s.active[t];
    if a.keys == [] || a.node !in s.nodes || s.nodes[a.node].session != a.id then Finished(s, t)
    else
      var key, owners := a.keys[0], OwnersOf(s.blocks, a.keys[0]);
      var owners' := owners[a.node := OwnerRecord(a.id, a.now)];
      Became(s, t, Insert(a.node, a.id, a.now, a.keys[1..]))
        .(blocks := s.blocks[key := owners'], counters := Adjust(s.counters, |owners|, |owners'|))
  }

  function AfterRemoveOne(s: State, t: nat): State
    requires t in s.active && s.active[t].Remove?
  {
    var a := s.active[t];
    if a.keys == [] then Finished(s, t)
    else
      var key := a.keys[0];
      var s' := Became(s, t, Remove(a.node, a.id, a.keys[1..]));
      if key !in s.blocks then s'
      else
        var owners := s.blocks[key];
        var owners' := WithoutOwner(owners, a.node, a.id);
        s'.(blocks := WithOwners(s.blocks, key, owners'), counters := Adjust(s.counters, |owners|, |owners'|))
  }

  function AfterUnregister(s: State, t: nat, node: Node, id: Session): State {
    if node !in s.nodes || s.nodes[node].session != id then s
    else Became(s, t, Scan(LiveSessionsOf(node), s.blocks.Keys)).(nodes := s.nodes - {node})
  }

  function AfterSweepSwap(s: State, t: nat): State {
    Became(s, t, SweepNodes(s.reconcile, s.clock, 0, s.nodes.Keys)).(reconcile := false)
  }

  function AfterSweepNode(s: State, t: nat, node: Node): State
    requires t in s.active && s.active[t].SweepNodes?
  {
    var a := s.active[t];
    var seen := a.(unseen := a.unseen - {node});
    if node in s.nodes && Age(a.now, s.nodes[node].lastSeen) > s.cfg.ttl then
      Became(s, t, seen.(removed := a.removed + 1)).(nodes := s.nodes - {node})
    else Became(s, t, seen)
  }

  function AfterSweepDecide(s: State, t: nat): State
    requires t in s.active && s.active[t].SweepNodes?
  {
    if s.active[t].removed == 0 && !s.active[t].reconcile then Finished(s, t)
    else Became(s, t, Scan(LiveSessions, s.blocks.Keys))
  }

  function AfterClearNode(s: State, t: nat, node: Node): State
    requires t in s.active && s.active[t].ClearNodes?
  {
    Became(s, t, ClearNodes(s.active[t].unseen - {node})).(nodes := s.nodes - {node})
  }

  function AfterTakeGuard(s: State, t: nat, key: BlockKey): State
    requires t in s.active && s.active[t].Scan?
  {
    var a := s.active[t];
    if key !in s.blocks then Became(s, t, Scan(a.filter, a.todo - {key}))
    else
      Became(s, t, ScanKey(a.filter, a.todo - {key}, key, s.blocks[key].Keys))
        .(guarded := s.guarded[key := s.blocks[key].Keys])
  }

  function AfterVisitOwner(s: State, t: nat, node: Node): State
    requires t in s.active && s.active[t].ScanKey?
  {
    var a := s.active[t];
    var s' := Became(s, t, a.(left := a.left - {node}));
    if a.key in s.blocks && node in s.blocks[a.key] && !Keeps(a.filter, s.nodes, node, s.blocks[a.key][node]) then
      s'.(blocks := s.blocks[a.key := s.blocks[a.key] - {node}])
    else s'
  }

  function AfterDropGuard(s: State, t: nat): State
    requires t in s.active && s.active[t].ScanKey?
  {
    var a := s.active[t];
    var before := if a.key in s.guarded then |s.guarded[a.key]| else 0;
    var owners := OwnersOf(s.blocks, a.key);
    Became(s, t, Scan(a.filter, a.todo))
      .(blocks := WithOwners(s.blocks, a.key, owners),
        counters := Adjust(s.counters, before, |owners|),
        guarded := s.guarded - {a.key})
  }

  ghost function Apply(s: State, step: Step): State
    requires Enabled(s, step)
  {
    match step
    case Tick(delta) => s.(clock := s.clock + delta)
    case Heartbeat(t, node, id, now) => AfterHeartbeat(s, t, node, id, now)
    case TakeoverWrite(t) => AfterTakeoverWrite(s, t)
    case SetInstance(node, id, hasInstance) => AfterSetInstance(s, node, id, hasInstance)
    case BeginInsert(t, node, id, keys) => AfterBegin(s, t, node, id, Insert(node, id, s.clock, keys))
    case InsertOne(t) => AfterInsertOne(s, t)
    case BeginRemove(t, node, id, keys) => AfterBegin(s, t, node, id, Remove(node, id, keys))
    case RemoveOne(t) => AfterRemoveOne(s, t)
    case Unregister(t, node, id) => AfterUnregister(s, t, node, id)
    case SweepSwap(t) => AfterSweepSwap(s, t)
    case SweepNode(t, node) => AfterSweepNode(s, t, node)
    case SweepDecide(t) => AfterSweepDecide(s, t)
    case Cleanup(t, maxAge) => Became(s, t, Scan(Younger(s.clock, maxAge), s.blocks.Keys))
    case BeginClear(t) => Became(s, t, ClearNodes(s.nodes.Keys))
    case ClearNode(t, node) => AfterClearNode(s, t, node)
    case ClearDone(t) => Became(s, t, Scan(Nothing, s.blocks.Keys))
    case TakeGuard(t, key) => AfterTakeGuard(s, t, key)
    case VisitOwner(t, node) => AfterVisitOwner(s, t, node)
    case DropGuard(t) => AfterDropGuard(s, t)
    case EndScan(t) => Finished(s, t)
  }

  ghost predicate ValidRun(s: State, steps: seq<Step>)
    decreases |steps|
  {
    steps == [] || (Enabled(s, steps[0]) && ValidRun(Apply(s, steps[0]), steps[1..]))
  }

  ghost function Run(s: State, steps: seq<Step>): State
    requires ValidRun(s, steps)
    decreases |steps|
  {
    if steps == [] then s else Run(Apply(s, steps[0]), steps[1..])
  }

  // ------------------------------------------------------------ stale records

  /** The call is bound to visit the owner record (`key`, `n`) and to drop it if it is stale. */
  predicate Covers(a: Activity, key: BlockKey, n: Node) {
    match a
    case SweepNodes(reconcile, _, removed, _) => reconcile || removed > 0
    case ClearNodes(_) => true
    case Scan(f, todo) => DropsStale(f, n) && key in todo
    case ScanKey(f, todo, k, left) => DropsStale(f, n) && (key in todo || (key == k && n in left))
    case _ => false
  }

  ghost predicate Pending(s: State, key: BlockKey, n: Node) {
    s.reconcile || exists t | t in s.active :: Covers(s.active[t], key, n)
  }

  /** A sweep that consumed the flag and has not passed node `n` yet. */
  predicate WillVisit(a: Activity, n: Node) { a.SweepNodes? && a.reconcile && n in a.unseen }

  ghost predicate StaleOnlyWhilePending(s: State) {
    forall k, n | k in s.blocks && n in s.blocks[k] ::
      Current(s.nodes, n, s.blocks[k][n]) || Pending(s, k, n)
  }

  ghost predicate TakeoverOk(s: State, t: nat) {
    t in s.active && s.active[t].Takeover? ==>
      var n := s.active[t].node;
      && n in s.heldNodes && n in s.nodes
      && (s.reconcile || exists u | u in s.active :: WillVisit(s.active[u], n))
  }

  ghost predicate TakeoversOk(s: State) {
    && (forall t | t in s.active :: TakeoverOk(s, t))
    && (forall t, u | t in s.active && u in s.active && s.active[t].Takeover? && s.active[u].Takeover? ::
          s.active[t].node == s.active[u].node ==> t == u)
  }

  ghost predicate GuardOk(s: State, t: nat) {
    t in s.active && s.active[t].ScanKey? ==>
      var k := s.active[t].key;
      && k in s.guarded && k in s.blocks
      && s.active[t].left <= s.blocks[k].Keys
  }

  predicate Guards(a: Activity, key: BlockKey) { a.ScanKey? && a.key == key }

  ghost predicate GuardsOk(s: State) {
    && (forall t | t in s.active :: GuardOk(s, t))
    && (forall t, u, k | t in s.active && u in s.active && Guards(s.active[t], k) && Guards(s.active[u], k) :: t == u)
    && (forall k | k in s.guarded :: exists t | t in s.active :: Guards(s.active[t], k))
  }

  /** The owners the counters stand for: those at the time a held guard was taken, else those stored. */
  ghost function AccountedIn(s: State): Accounted {
    map k | k in s.blocks :: if k in s.guarded then s.guarded[k] else s.blocks[k].Keys
  }

  ghost predicate CountsOk(s: State) {
    s.guarded.Keys <= s.blocks.Keys && Balanced(s.counters, AccountedIn(s))
  }

  ghost predicate Inv(s: State) {
    && TakeoversOk(s)
    && GuardsOk(s)
    && StaleOnlyWhilePending(s)
    && CountsOk(s)
  }

  /** Only call `t` moved, and the flag was not consumed. */
  ghost predicate OnlyMoved(s: State, s': State, t: nat) {
    && (forall u | u != t :: u in s.active <==> u in s'.active)
    && (forall u | u != t && u in s.active :: s'.active[u] == s.active[u])
    && (s.reconcile ==> s'.reconcile)
  }

  lemma PendingFrame(s: State, s': State, t: nat, k: BlockKey, n: Node)
    requires Pending(s, k, n) && OnlyMoved(s, s', t)
    requires t in s.active && Covers(s.active[t], k, n) ==>
               s'.reconcile || (t in s'.active && Covers(s'.active[t], k, n))
    ensures Pending(s', k, n)
  {
    if !s'.reconcile {
      var u :| u in s.active && Covers(s.active[u], k, n);
      assert u in s'.active && Covers(s'.active[u], k, n);
    }
  }

  /** A step that leaves every surviving stale record where it was, and `t` still bound to visit it. */
  lemma StaleFrame(s: State, s': State, t: nat)
    requires StaleOnlyWhilePending(s) && OnlyMoved(s, s', t)
    requires forall k, n | k in s'.blocks && n in s'.blocks[k] && !Current(s'.nodes, n, s'.blocks[k][n]) ::
               && k in s.blocks && n in s.blocks[k] && !Current(s.nodes, n, s.blocks[k][n])
               && (t in s.active && Covers(s.active[t], k, n) ==>
                     s'.reconcile || (t in s'.active && Covers(s'.active[t], k, n)))
    ensures StaleOnlyWhilePending(s')
  {
    forall k, n | k in s'.blocks && n in s'.blocks[k] && !Current(s'.nodes, n, s'.blocks[k][n])
      ensures Pending(s', k, n)
    {
      PendingFrame(s, s', t, k, n);
    }
  }

  /** A step after which call `t` is bound to visit every record. */
  lemma StaleCovered(s: State, t: nat)
    requires t in s.active
    requires forall k, n | k in s.blocks && n in s.blocks[k] && !Current(s.nodes, n, s.blocks[k][n]) ::
               Covers(s.active[t], k, n)
    ensures StaleOnlyWhilePending(s)
  {
  }

  lemma TakeoversFrame(s: State, s': State, t: nat)
    requires TakeoversOk(s) && NodesQuiet(s, s', t)
    ensures TakeoversOk(s')
  {
    forall u | u in s'.active && s'.active[u].Takeover? ensures TakeoverOk(s', u) {
      assert TakeoverOk(s, u);
      if !s'.reconcile {
        var w :| w in s.active && WillVisit(s.active[w], s.active[u].node);
        assert w in s'.active && WillVisit(s'.active[w], s.active[u].node);
      }
    }
  }

  lemma GuardsFrame(s: State, s': State)
    requires GuardsOk(s) && BlocksQuiet(s, s')
    ensures GuardsOk(s')
  {
    forall u | u in s'.active && s'.active[u].ScanKey? ensures GuardOk(s', u) { assert GuardOk(s, u); }
    forall k | k in s'.guarded ensures exists u | u in s'.active :: Guards(s'.active[u], k) {
      var u :| u in s.active && Guards(s.active[u], k);
      assert u in s'.active && Guards(s'.active[u], k);
    }
  }

  lemma TakeoverWriteStale(s: State, t: nat)
    requires StaleOnlyWhilePending(s) && TakeoverOk(s, t) && Enabled(s, TakeoverWrite(t))
    ensures StaleOnlyWhilePending(AfterTakeoverWrite(s, t))
  {
    var s', node := AfterTakeoverWrite(s, t), s.active[t].node;
    forall k, n | k in s'.blocks && n in s'.blocks[k] && !Current(s'.nodes, n, s'.blocks[k][n])
      ensures Pending(s', k, n)
    {
      if n != node {
        PendingFrame(s, s', t, k, n);
      } else if !s.reconcile {
        var u :| u in s.active && WillVisit(s.active[u], node);
        assert u in s'.active && Covers(s'.active[u], k, n);
      }
    }
  }

  lemma UnregisterStale(s: State, t: nat, node: Node, id: Session)
    requires StaleOnlyWhilePending(s) && Enabled(s, Unregister(t, node, id))
    ensures StaleOnlyWhilePending(AfterUnregister(s, t, node, id))
  {
    var s' := AfterUnregister(s, t, node, id);
    forall k, n | k in s'.blocks && n in s'.blocks[k] && !Current(s'.nodes, n, s'.blocks[k][n])
      ensures Pending(s', k, n)
    {
      if n == node && t in s'.active { assert Covers(s'.active[t], k, n); } else { PendingFrame(s, s', t, k, n); }
    }
  }

  /** Steps of heartbeat, insert and remove calls; the others belong to calls that scan. */
  predicate IsCallStep(step: Step) {
    || step.Tick? || step.Heartbeat? || step.SetInstance? || step.BeginInsert?
    || step.InsertOne? || step.BeginRemove? || step.RemoveOne?
  }

  /** The call that takes the step; a clock tick and `set_node_has_instance` move none. */
  function Actor(step: Step): nat { if step.Tick? || step.SetInstance? then 0 else step.t }

  lemma InsertOneStale(s: State, t: nat)
    requires StaleOnlyWhilePending(s) && Enabled(s, InsertOne(t))
    ensures StaleOnlyWhilePending(AfterInsertOne(s, t))
  {
    StaleFrame(s, AfterInsertOne(s, t), t);
  }

  lemma RemoveOneStale(s: State, t: nat)
    requires StaleOnlyWhilePending(s) && Enabled(s, RemoveOne(t))
    ensures StaleOnlyWhilePending(AfterRemoveOne(s, t))
  {
    StaleFrame(s, AfterRemoveOne(s, t), t);
  }

  lemma StaleCallStep(s: State, step: Step)
    requires StaleOnlyWhilePending(s) && Enabled(s, step) && IsCallStep(step)
    ensures StaleOnlyWhilePending(Apply(s, step))
  {
    if step.InsertOne? {
      InsertOneStale(s, step.t);
    } else if step.RemoveOne? {
      RemoveOneStale(s, step.t);
    } else if step.Heartbeat? {
      HeartbeatStale(s, step.t, step.node, step.id, step.now);
    } else if step.BeginInsert? {
      BeginStale(s, step.t, step.node, step.id, Insert(step.node, step.id, s.clock, step.keys));
    } else if step.BeginRemove? {
      BeginStale(s, step.t, step.node, step.id, Remove(step.node, step.id, step.keys));
    } else if step.SetInstance? {
      SetInstanceStale(s, step.node, step.id, step.hasInstance);
    }
  }

  lemma HeartbeatStale(s: State, t: nat, node: Node, id: Session, now: nat)
    requires StaleOnlyWhilePending(s) && Enabled(s, Heartbeat(t, node, id, now))
    ensures StaleOnlyWhilePending(AfterHeartbeat(s, t, node, id, now))
  {
    StaleFrame(s, AfterHeartbeat(s, t, node, id, now), t);
  }

  lemma BeginStale(s: State, t: nat, node: Node, id: Session, call: Activity)
    requires StaleOnlyWhilePending(s) && t !in s.active
    ensures StaleOnlyWhilePending(AfterBegin(s, t, node, id, call))
  {
    StaleFrame(s, AfterBegin(s, t, node, id, call), t);
  }

  lemma SetInstanceStale(s: State, node: Node, id: Session, hasInstance: bool)
    requires StaleOnlyWhilePending(s)
    ensures StaleOnlyWhilePending(AfterSetInstance(s, node, id, hasInstance))
  {
    StaleFrame(s, AfterSetInstance(s, node, id, hasInstance), 0);
  }

  predicate IsGuardStep(step: Step) {
    step.Cleanup? || step.TakeGuard? || step.VisitOwner? || step.DropGuard? || step.EndScan?
  }

  lemma TakeGuardStale(s: State, t: nat, key: BlockKey)
    requires StaleOnlyWhilePending(s) && Enabled(s, TakeGuard(t, key))
    ensures StaleOnlyWhilePending(AfterTakeGuard(s, t, key))
  {
    StaleFrame(s, AfterTakeGuard(s, t, key), t);
  }

  lemma VisitOwnerStale(s: State, t: nat, node: Node)
    requires StaleOnlyWhilePending(s) && Enabled(s, VisitOwner(t, node))
    ensures StaleOnlyWhilePending(AfterVisitOwner(s, t, node))
  {
    var s', a := AfterVisitOwner(s, t, node), s.active[t];
    forall k, n | k in s'.blocks && n in s'.blocks[k] && !Current(s'.nodes, n, s'.blocks[k][n])
      ensures k in s.blocks && n in s.blocks[k] && s.blocks[k][n] == s'.blocks[k][n]
              && (Covers(a, k, n) ==> Covers(s'.active[t], k, n))
    {
    }
    StaleFrame(s, s', t);
  }

  lemma DropGuardStale(s: State, t: nat)
    requires StaleOnlyWhilePending(s) && Enabled(s, DropGuard(t))
    ensures StaleOnlyWhilePending(AfterDropGuard(s, t))
  {
    var key := s.active[t].key;
    OwnSubset(s.blocks, key);
    StaleShrinks(s, AfterDropGuard(s, t), t);
  }

  /** Writing a key's own owners back at most drops the key. */
  lemma OwnSubset(blocks: Blocks, key: BlockKey)
    ensures var after := WithOwners(blocks, key, OwnersOf(blocks, key));
            forall k | k in after :: k in blocks && after[k] == blocks[k]
  {
  }

  lemma StaleShrinks(s: State, s': State, t: nat)
    requires StaleOnlyWhilePending(s) && OnlyMoved(s, s', t) && s'.nodes == s.nodes
    requires forall k | k in s'.blocks :: k in s.blocks && s'.blocks[k] == s.blocks[k]
    requires t in s.active && s.active[t].ScanKey? && s.active[t].left == {} && t in s'.active
    requires s'.active[t] == Scan(s.active[t].filter, s.active[t].todo)
    ensures StaleOnlyWhilePending(s')
  {
    StaleFrame(s, s', t);
  }

  lemma CleanupStale(s: State, t: nat, maxAge: nat)
    requires StaleOnlyWhilePending(s) && Enabled(s, Cleanup(t, maxAge))
    ensures StaleOnlyWhilePending(Became(s, t, Scan(Younger(s.clock, maxAge), s.blocks.Keys)))
  {
    StaleFrame(s, Became(s, t, Scan(Younger(s.clock, maxAge), s.blocks.Keys)), t);
  }

  lemma EndScanStale(s: State, t: nat)
    requires StaleOnlyWhilePending(s) && Enabled(s, EndScan(t))
    ensures StaleOnlyWhilePending(Finished(s, t))
  {
    StaleFrame(s, Finished(s, t), t);
  }

  lemma StaleGuardStep(s: State, step: Step)
    requires StaleOnlyWhilePending(s) && Enabled(s, step) && IsGuardStep(step)
    ensures StaleOnlyWhilePending(Apply(s, step))
  {
    match step
    case Cleanup(t, maxAge) => CleanupStale(s, t, maxAge);
    case TakeGuard(t, key) => TakeGuardStale(s, t, key);
    case VisitOwner(t, node) => VisitOwnerStale(s, t, node);
    case DropGuard(t) => DropGuardStale(s, t);
    case EndScan(t) => EndScanStale(s, t);
  }

  lemma StaleNodeStep(s: State, step: Step)
    requires StaleOnlyWhilePending(s) && Enabled(s, step) && !IsCallStep(step) && !IsGuardStep(step)
    requires step.TakeoverWrite? ==> TakeoverOk(s, step.t)
    ensures StaleOnlyWhilePending(Apply(s, step))
  {
    match step
    case TakeoverWrite(t) => TakeoverWriteStale(s, t);
    case Unregister(t, node, id) => UnregisterStale(s, t, node, id);
    case SweepSwap(t) => SweepSwapStale(s, t);
    case SweepNode(t, node) => SweepNodeStale(s, t, node);
    case SweepDecide(t) => SweepDecideStale(s, t);
    case BeginClear(t) => StaleCovered(Became(s, t, ClearNodes(s.nodes.Keys)), t);
    case ClearNode(t, node) => StaleCovered(AfterClearNode(s, t, node), t);
    case ClearDone(t) => StaleCovered(Became(s, t, Scan(Nothing, s.blocks.Keys)), t);
  }

  lemma SweepSwapStale(s: State, t: nat)
    requires StaleOnlyWhilePending(s) && Enabled(s, SweepSwap(t))
    ensures StaleOnlyWhilePending(AfterSweepSwap(s, t))
  {
    var s' := AfterSweepSwap(s, t);
    if s.reconcile { StaleCovered(s', t); } else { StaleFrame(s, s', t); }
  }

  lemma SweepNodeStale(s: State, t: nat, node: Node)
    requires StaleOnlyWhilePending(s) && Enabled(s, SweepNode(t, node))
    ensures StaleOnlyWhilePending(AfterSweepNode(s, t, node))
  {
    var s' := AfterSweepNode(s, t, node);
    if s'.nodes != s.nodes { StaleCovered(s', t); } else { StaleFrame(s, s', t); }
  }

  lemma SweepDecideStale(s: State, t: nat)
    requires StaleOnlyWhilePending(s) && Enabled(s, SweepDecide(t))
    ensures StaleOnlyWhilePending(AfterSweepDecide(s, t))
  {
    StaleFrame(s, AfterSweepDecide(s, t), t);
  }

  lemma TakeoverWriteTakeovers(s: State, t: nat)
    requires TakeoversOk(s) && Enabled(s, TakeoverWrite(t))
    ensures TakeoversOk(AfterTakeoverWrite(s, t))
  {
    var s' := AfterTakeoverWrite(s, t);
    forall u | u in s'.active && s'.active[u].Takeover? ensures TakeoverOk(s', u) {
      assert TakeoverOk(s, u);
      if !s.reconcile {
        var w :| w in s.active && WillVisit(s.active[w], s.active[u].node);
        assert w in s'.active && WillVisit(s'.active[w], s.active[u].node);
      }
    }
  }

  lemma SweepSwapTakeovers(s: State, t: nat)
    requires TakeoversOk(s) && Enabled(s, SweepSwap(t))
    ensures TakeoversOk(AfterSweepSwap(s, t))
  {
    var s' := AfterSweepSwap(s, t);
    if s.reconcile {
      forall u | u in s'.active && s'.active[u].Takeover? ensures TakeoverOk(s', u) {
        assert TakeoverOk(s, u);
        assert WillVisit(s'.active[t], s'.active[u].node);
      }
    } else {
      TakeoversFrame(s, s', t);
    }
  }

  lemma HeartbeatTakeovers(s: State, t: nat, node: Node, id: Session, now: nat)
    requires TakeoversOk(s) && Enabled(s, Heartbeat(t, node, id, now))
    ensures TakeoversOk(AfterHeartbeat(s, t, node, id, now))
  {
    var s' := AfterHeartbeat(s, t, node, id, now);
    if t in s'.active { TakeoverBegins(s, s', t, node); } else { TakeoversFrame(s, s', t); }
  }

  lemma TakeoverBegins(s: State, s': State, t: nat, node: Node)
    requires TakeoversOk(s) && t !in s.active && node !in s.heldNodes && node in s.nodes
    requires s'.reconcile && s'.heldNodes == s.heldNodes + {node} && s'.nodes == s.nodes
    requires t in s'.active && s'.active == s.active[t := s'.active[t]] && s'.active[t].Takeover?
             && s'.active[t].node == node
    ensures TakeoversOk(s')
  {
    forall u | u in s'.active ensures TakeoverOk(s', u) { assert u != t ==> TakeoverOk(s, u); }
    forall u | u in s'.active && u != t && s'.active[u].Takeover?
      ensures s'.active[u].node != node
    {
      assert TakeoverOk(s, u);
    }
  }

  /** A step that takes no node guard and keeps every sweep that must still see a held node. */
  ghost predicate NodesQuiet(s: State, s': State, t: nat) {
    && OnlyMoved(s, s', t) && s'.heldNodes == s.heldNodes
    && (t in s'.active && s'.active[t].Takeover? ==> t in s.active && s.active[t] == s'.active[t])
    && (forall n | n in s.heldNodes && n in s.nodes :: n in s'.nodes)
    && (forall n | n in s.heldNodes && t in s.active && WillVisit(s.active[t], n) ::
          t in s'.active && WillVisit(s'.active[t], n))
  }

  /** Call `t` ended, or is now at `s'.active[t]`, or did not move. */
  ghost predicate ActorMoved(s: State, s': State, t: nat) {
    || s'.active == s.active
    || s'.active == s.active - {t}
    || (t in s'.active && s'.active == s.active[t := s'.active[t]])
  }

  lemma MovedQuiet(s: State, s': State, t: nat)
    requires ActorMoved(s, s', t) && s'.heldNodes == s.heldNodes && s'.reconcile == s.reconcile
    requires s'.active == s.active || !(t in s'.active && s'.active[t].Takeover?)
    requires s'.active == s.active || !(t in s.active && s.active[t].SweepNodes?)
    requires forall n | n in s.heldNodes && n in s.nodes :: n in s'.nodes
    ensures NodesQuiet(s, s', t)
  {
  }

  lemma CallNodesQuiet(s: State, step: Step)
    requires Enabled(s, step) && IsCallStep(step) && !step.Heartbeat?
    ensures NodesQuiet(s, Apply(s, step), Actor(step))
  {
    match step
    case Tick(_) => MovedQuiet(s, Apply(s, step), 0);
    case SetInstance(node, id, has) => MovedQuiet(s, AfterSetInstance(s, node, id, has), 0);
    case BeginInsert(t, node, id, keys) => BeginQuiet(s, t, node, id, Insert(node, id, s.clock, keys));
    case InsertOne(t) => InsertOneQuiet(s, t);
    case BeginRemove(t, node, id, keys) => BeginQuiet(s, t, node, id, Remove(node, id, keys));
    case RemoveOne(t) => RemoveOneQuiet(s, t);
  }

  lemma BeginQuiet(s: State, t: nat, node: Node, id: Session, call: Activity)
    requires t !in s.active && !call.Takeover?
    ensures NodesQuiet(s, AfterBegin(s, t, node, id, call), t)
  {
    MovedQuiet(s, AfterBegin(s, t, node, id, call), t);
  }

  lemma InsertOneQuiet(s: State, t: nat)
    requires t in s.active && s.active[t].Insert?
    ensures NodesQuiet(s, AfterInsertOne(s, t), t)
  {
    MovedQuiet(s, AfterInsertOne(s, t), t);
  }

  lemma RemoveOneQuiet(s: State, t: nat)
    requires t in s.active && s.active[t].Remove?
    ensures NodesQuiet(s, AfterRemoveOne(s, t), t)
  {
    var s', a := AfterRemoveOne(s, t), s.active[t];
    assert s'.nodes == s.nodes && s'.heldNodes == s.heldNodes && s'.reconcile == s.reconcile;
    if a.keys == [] {
      assert s'.active == s.active - {t};
    } else {
      assert s'.active == s.active[t := Remove(a.node, a.id, a.keys[1..])];
    }
    MovedQuiet(s, s', t);
  }

  lemma GuardNodesQuiet(s: State, step: Step)
    requires Enabled(s, step) && IsGuardStep(step)
    ensures NodesQuiet(s, Apply(s, step), Actor(step))
  {
    match step
    case Cleanup(t, _) => MovedQuiet(s, Apply(s, step), t);
    case TakeGuard(t, key) => MovedQuiet(s, AfterTakeGuard(s, t, key), t);
    case VisitOwner(t, node) => MovedQuiet(s, AfterVisitOwner(s, t, node), t);
    case DropGuard(t) => MovedQuiet(s, AfterDropGuard(s, t), t);
    case EndScan(t) => MovedQuiet(s, Finished(s, t), t);
  }

  lemma SweepNodeQuiet(s: State, t: nat, node: Node)
    requires Enabled(s, SweepNode(t, node))
    ensures NodesQuiet(s, AfterSweepNode(s, t, node), t)
  {
  }

  lemma SweepNodesQuiet(s: State, step: Step)
    requires Enabled(s, step) && !IsCallStep(step) && !IsGuardStep(step) && !step.TakeoverWrite? && !step.SweepSwap?
    ensures NodesQuiet(s, Apply(s, step), Actor(step))
  {
    match step
    case Unregister(t, node, id) => MovedQuiet(s, AfterUnregister(s, t, node, id), t);
    case SweepNode(t, node) => SweepNodeQuiet(s, t, node);
    case SweepDecide(t) => SweepDecideQuiet(s, t);
    case BeginClear(t) => MovedQuiet(s, Became(s, t, ClearNodes(s.nodes.Keys)), t);
    case ClearNode(t, node) => ClearNodeQuiet(s, t, node);
    case ClearDone(t) => MovedQuiet(s, Became(s, t, Scan(Nothing, s.blocks.Keys)), t);
  }

  lemma SweepDecideQuiet(s: State, t: nat)
    requires Enabled(s, SweepDecide(t))
    ensures NodesQuiet(s, AfterSweepDecide(s, t), t)
  {
  }

  lemma ClearNodeQuiet(s: State, t: nat, node: Node)
    requires Enabled(s, ClearNode(t, node))
    ensures NodesQuiet(s, AfterClearNode(s, t, node), t)
  {
    MovedQuiet(s, AfterClearNode(s, t, node), t);
  }

  lemma TakeoversStep(s: State, step: Step)
    requires TakeoversOk(s) && Enabled(s, step)
    ensures TakeoversOk(Apply(s, step))
  {
    if step.Heartbeat? {
      HeartbeatTakeovers(s, step.t, step.node, step.id, step.now);
    } else if step.TakeoverWrite? {
      TakeoverWriteTakeovers(s, step.t);
    } else if step.SweepSwap? {
      SweepSwapTakeovers(s, step.t);
    } else {
      if IsCallStep(step) {
        CallNodesQuiet(s, step);
      } else if IsGuardStep(step) {
        GuardNodesQuiet(s, step);
      } else {
        SweepNodesQuiet(s, step);
      }
      TakeoversFrame(s, Apply(s, step), Actor(step));
    }
  }

  lemma TakeGuardGuards(s: State, t: nat, key: BlockKey)
    requires GuardsOk(s) && Enabled(s, TakeGuard(t, key))
    ensures GuardsOk(AfterTakeGuard(s, t, key))
  {
    var s' := AfterTakeGuard(s, t, key);
    if key in s.blocks { GuardTaken(s, s', t, key); } else { MovedBlocksQuiet(s, s', t); GuardsFrame(s, s'); }
  }

  lemma GuardTaken(s: State, s': State, t: nat, key: BlockKey)
    requires GuardsOk(s) && t in s.active && s.active[t].Scan? && key !in s.guarded && key in s.blocks
    requires s'.blocks == s.blocks && s'.guarded == s.guarded[key := s.blocks[key].Keys]
    requires t in s'.active && s'.active == s.active[t := s'.active[t]] && Guards(s'.active[t], key)
             && s'.active[t].left == s.blocks[key].Keys
    ensures GuardsOk(s')
  {
    forall u | u in s'.active ensures GuardOk(s', u) { assert u != t ==> GuardOk(s, u); }
    forall k | k in s'.guarded ensures exists u | u in s'.active :: Guards(s'.active[u], k) {
      if k in s.guarded {
        var u :| u in s.active && Guards(s.active[u], k);
        assert u in s'.active && Guards(s'.active[u], k);
      } else {
        assert Guards(s'.active[t], k);
      }
    }
  }

  /** Call `t` keeps the guard of its key or drops it, and touches no other key. */
  ghost predicate HolderMoved(s: State, s': State, t: nat) {
    && OnlyMoved(s, s', t) && t in s.active && s.active[t].ScanKey?
    && var key := s.active[t].key;
    && (if t in s'.active && s'.active[t].ScanKey?
        then s'.guarded == s.guarded && s'.active[t].key == key && key in s'.blocks
             && s'.active[t].left <= s'.blocks[key].Keys
        else s'.guarded == s.guarded - {key})
    && (forall k | k != key && k in s.blocks :: k in s'.blocks && s'.blocks[k] == s.blocks[k])
  }

  lemma HeldGuards(s: State, s': State, t: nat)
    requires GuardsOk(s) && HolderMoved(s, s', t)
    ensures GuardsOk(s')
  {
    var key := s.active[t].key;
    assert Guards(s.active[t], key) && GuardOk(s, t);
    forall u | u in s'.active && s'.active[u].ScanKey? ensures GuardOk(s', u) { OtherGuard(s, s', t, u); }
    forall u, k | u in s'.active && Guards(s'.active[u], k) ensures u in s.active && Guards(s.active[u], k) {}
    forall k | k in s'.guarded
      ensures exists u | u in s'.active :: Guards(s'.active[u], k)
    {
      StillGuarded(s, s', t, k);
    }
  }

  lemma StillGuarded(s: State, s': State, t: nat, k: BlockKey)
    requires GuardsOk(s) && HolderMoved(s, s', t) && k in s'.guarded
    ensures exists u | u in s'.active :: Guards(s'.active[u], k)
  {
    var u :| u in s.active && Guards(s.active[u], k);
    assert u in s'.active && Guards(s'.active[u], k);
  }

  /** Guards held by other calls are for other keys, which this call left alone. */
  lemma OtherGuard(s: State, s': State, t: nat, u: nat)
    requires GuardsOk(s) && HolderMoved(s, s', t) && u in s'.active && s'.active[u].ScanKey?
    ensures GuardOk(s', u)
  {
    assert GuardOk(s, t);
    if u != t {
      assert GuardOk(s, u);
      assert Guards(s.active[u], s.active[u].key) && Guards(s.active[t], s.active[t].key);
    }
  }

  /** A step that takes and drops no block guard and removes no owner under one. */
  ghost predicate BlocksQuiet(s: State, s': State) {
    && s'.guarded == s.guarded
    && (forall u | u in s'.active && s'.active[u].ScanKey? :: u in s.active && s.active[u] == s'.active[u])
    && (forall u | u in s.active && s.active[u].ScanKey? :: u in s'.active && s.active[u] == s'.active[u])
    && (forall k | k in s.guarded && k in s.blocks :: k in s'.blocks && s.blocks[k].Keys <= s'.blocks[k].Keys)
  }

  lemma MovedBlocksQuiet(s: State, s': State, t: nat)
    requires ActorMoved(s, s', t) && s'.guarded == s.guarded
    requires s'.active == s.active || (!(t in s'.active && s'.active[t].ScanKey?)
                                       && !(t in s.active && s.active[t].ScanKey?))
    requires forall k | k in s.guarded && k in s.blocks :: k in s'.blocks && s.blocks[k].Keys <= s'.blocks[k].Keys
    ensures BlocksQuiet(s, s')
  {
  }

  lemma InsertBlocksQuiet(s: State, t: nat)
    requires Enabled(s, InsertOne(t))
    ensures BlocksQuiet(s, AfterInsertOne(s, t))
  {
    MovedBlocksQuiet(s, AfterInsertOne(s, t), t);
  }

  lemma RemoveBlocksQuiet(s: State, t: nat)
    requires Enabled(s, RemoveOne(t))
    ensures BlocksQuiet(s, AfterRemoveOne(s, t))
  {
    var s', a := AfterRemoveOne(s, t), s.active[t];
    if a.keys != [] && a.keys[0] in s.blocks {
      KeptElsewhere(s, s', a.keys[0], WithoutOwner(s.blocks[a.keys[0]], a.node, a.id));
    }
    MovedBlocksQuiet(s, s', t);
  }

  lemma KeptElsewhere(s: State, s': State, key: BlockKey, owners: Owners)
    requires s'.blocks == WithOwners(s.blocks, key, owners) && key !in s.guarded
    ensures forall k | k in s.guarded && k in s.blocks :: k in s'.blocks && s'.blocks[k] == s.blocks[k]
  {
  }

  lemma CallBlocksQuiet(s: State, step: Step)
    requires Enabled(s, step) && IsCallStep(step)
    ensures BlocksQuiet(s, Apply(s, step))
  {
    match step
    case Tick(_) => MovedBlocksQuiet(s, Apply(s, step), 0);
    case Heartbeat(t, node, id, now) => MovedBlocksQuiet(s, AfterHeartbeat(s, t, node, id, now), t);
    case SetInstance(node, id, has) => MovedBlocksQuiet(s, AfterSetInstance(s, node, id, has), 0);
    case BeginInsert(t, node, id, keys) =>
      MovedBlocksQuiet(s, AfterBegin(s, t, node, id, Insert(node, id, s.clock, keys)), t);
    case InsertOne(t) => InsertBlocksQuiet(s, t);
    case BeginRemove(t, node, id, keys) => MovedBlocksQuiet(s, AfterBegin(s, t, node, id, Remove(node, id, keys)), t);
    case RemoveOne(t) => RemoveBlocksQuiet(s, t);
  }

  lemma ScanBlocksQuiet(s: State, step: Step)
    requires Enabled(s, step) && !IsCallStep(step) && !step.TakeGuard? && !step.VisitOwner? && !step.DropGuard?
    ensures BlocksQuiet(s, Apply(s, step))
  {
    if step.TakeoverWrite? || step.Unregister? || step.SweepSwap? || step.SweepNode? || step.SweepDecide? {
      SweepBlocksQuiet(s, step);
    } else {
      MovedBlocksQuiet(s, Apply(s, step), step.t);
    }
  }

  lemma SweepBlocksQuiet(s: State, step: Step)
    requires step.TakeoverWrite? || step.Unregister? || step.SweepSwap? || step.SweepNode? || step.SweepDecide?
    requires Enabled(s, step)
    ensures BlocksQuiet(s, Apply(s, step))
  {
    match step
    case TakeoverWrite(t) => MovedBlocksQuiet(s, AfterTakeoverWrite(s, t), t);
    case Unregister(t, node, id) => MovedBlocksQuiet(s, AfterUnregister(s, t, node, id), t);
    case SweepSwap(t) => MovedBlocksQuiet(s, AfterSweepSwap(s, t), t);
    case SweepNode(t, node) => MovedBlocksQuiet(s, AfterSweepNode(s, t, node), t);
    case SweepDecide(t) => MovedBlocksQuiet(s, AfterSweepDecide(s, t), t);
  }

  lemma VisitOwnerGuards(s: State, t: nat, node: Node)
    requires GuardsOk(s) && Enabled(s, VisitOwner(t, node))
    ensures GuardsOk(AfterVisitOwner(s, t, node))
  {
    assert GuardOk(s, t);
    VisitHolds(s, t, node);
    HeldGuards(s, AfterVisitOwner(s, t, node), t);
  }

  lemma VisitHolds(s: State, t: nat, node: Node)
    requires Enabled(s, VisitOwner(t, node)) && GuardOk(s, t)
    ensures HolderMoved(s, AfterVisitOwner(s, t, node), t)
  {
  }

  lemma DropGuardGuards(s: State, t: nat)
    requires GuardsOk(s) && Enabled(s, DropGuard(t))
    ensures GuardsOk(AfterDropGuard(s, t))
  {
    assert GuardOk(s, t);
    OthersKept(s.blocks, s.active[t].key, OwnersOf(s.blocks, s.active[t].key));
    HeldGuards(s, AfterDropGuard(s, t), t);
  }

  lemma OthersKept(blocks: Blocks, key: BlockKey, owners: Owners)
    ensures var after := WithOwners(blocks, key, owners);
            forall k | k != key && k in blocks :: k in after && after[k] == blocks[k]
  {
  }

  lemma GuardsStep(s: State, step: Step)
    requires GuardsOk(s) && Enabled(s, step)
    ensures GuardsOk(Apply(s, step))
  {
    if step.TakeGuard? {
      TakeGuardGuards(s, step.t, step.key);
    } else if step.VisitOwner? {
      VisitOwnerGuards(s, step.t, step.node);
    } else if step.DropGuard? {
      DropGuardGuards(s, step.t);
    } else {
      if IsCallStep(step) { CallBlocksQuiet(s, step); } else { ScanBlocksQuiet(s, step); }
      GuardsFrame(s, Apply(s, step));
    }
  }

  lemma AccountedMoved(s: State, s': State, key: BlockKey, after: Owners)
    requires s'.guarded == s.guarded - {key}
    requires s'.blocks == WithOwners(s.blocks, key, after)
    ensures AccountedIn(s') == WithNodes(AccountedIn(s), key, after.Keys)
  {
    assert after == map[] <==> after.Keys == {};
  }

  lemma CountsFrame(s: State, s': State)
    requires CountsOk(s) && s'.counters == s.counters && s'.guarded.Keys <= s'.blocks.Keys
    requires AccountedIn(s') == AccountedIn(s)
    ensures CountsOk(s')
  {
  }

  /** One guarded section: key `key` now has the owners `after`, and was accounted for. */
  lemma CountsMoved(s: State, s': State, key: BlockKey, before: nat, after: Owners)
    requires CountsOk(s)
    requires KeyMoved(s, s', key, before, after)
    ensures CountsOk(s')
  {
    AccountedMoved(s, s', key, after);
    AdjustExact(s.counters, AccountedIn(s), key, before, after.Keys);
    assert |after| == |after.Keys|;
    assert s'.guarded.Keys <= s'.blocks.Keys;
  }

  /** What an insert or remove step does to one key: the whole section runs under its guard. */
  ghost predicate KeyMoved(s: State, s': State, key: BlockKey, before: nat, after: Owners) {
    && s'.guarded == s.guarded - {key}
    && s'.blocks == WithOwners(s.blocks, key, after)
    && before == (if key in AccountedIn(s) then |AccountedIn(s)[key]| else 0)
    && s'.counters == Adjust(s.counters, before, |after|)
  }

  lemma InsertShape(s: State, t: nat)
    requires Enabled(s, InsertOne(t)) && t in AfterInsertOne(s, t).active
    ensures var a := s.active[t];
            var owners := OwnersOf(s.blocks, a.keys[0]);
            KeyMoved(s, AfterInsertOne(s, t), a.keys[0], |owners|, owners[a.node := OwnerRecord(a.id, a.now)])
  {
    var a := s.active[t];
    var key, owners := a.keys[0], OwnersOf(s.blocks, a.keys[0]);
    assert a.node in owners[a.node := OwnerRecord(a.id, a.now)];
    CountedBefore(s, key);
  }

  lemma CountedBefore(s: State, key: BlockKey)
    requires key !in s.guarded
    ensures s.guarded == s.guarded - {key}
    ensures |OwnersOf(s.blocks, key)| == if key in AccountedIn(s) then |AccountedIn(s)[key]| else 0
  {
    var owners := OwnersOf(s.blocks, key);
    assert |owners| == |owners.Keys|;
  }

  lemma RemoveShape(s: State, t: nat)
    requires Enabled(s, RemoveOne(t)) && s.active[t].keys != [] && s.active[t].keys[0] in s.blocks
    ensures var a := s.active[t];
            var owners := s.blocks[a.keys[0]];
            KeyMoved(s, AfterRemoveOne(s, t), a.keys[0], |owners|, WithoutOwner(owners, a.node, a.id))
  {
    CountedBefore(s, s.active[t].keys[0]);
  }

  lemma InsertOneCounts(s: State, t: nat)
    requires CountsOk(s) && Enabled(s, InsertOne(t))
    ensures CountsOk(AfterInsertOne(s, t))
  {
    var s', a := AfterInsertOne(s, t), s.active[t];
    if t !in s'.active {
      assert s'.blocks == s.blocks && s'.guarded == s.guarded;
      CountsFrame(s, s');
    } else {
      InsertMoved(s, t);
    }
  }

  lemma InsertMoved(s: State, t: nat)
    requires CountsOk(s) && Enabled(s, InsertOne(t)) && t in AfterInsertOne(s, t).active
    ensures CountsOk(AfterInsertOne(s, t))
  {
    var a := s.active[t];
    var owners := OwnersOf(s.blocks, a.keys[0]);
    InsertShape(s, t);
    CountsMoved(s, AfterInsertOne(s, t), a.keys[0], |owners|, owners[a.node := OwnerRecord(a.id, a.now)]);
  }

  lemma RemoveOneCounts(s: State, t: nat)
    requires CountsOk(s) && Enabled(s, RemoveOne(t))
    ensures CountsOk(AfterRemoveOne(s, t))
  {
    var s', a := AfterRemoveOne(s, t), s.active[t];
    if a.keys == [] || a.keys[0] !in s.blocks {
      CountsFrame(s, s');
    } else {
      var owners := s.blocks[a.keys[0]];
      RemoveShape(s, t);
      CountsMoved(s, s', a.keys[0], |owners|, WithoutOwner(owners, a.node, a.id));
    }
  }

  lemma DropGuardCounts(s: State, t: nat)
    requires CountsOk(s) && GuardOk(s, t) && Enabled(s, DropGuard(t))
    ensures CountsOk(AfterDropGuard(s, t))
  {
    var key := s.active[t].key;
    CountsMoved(s, AfterDropGuard(s, t), key, |s.guarded[key]|, s.blocks[key]);
  }

  lemma AccountedGuardStep(s: State, step: Step)
    requires Enabled(s, step) && IsGuardStep(step) && !step.DropGuard? && s.guarded.Keys <= s.blocks.Keys
    requires step.VisitOwner? ==> GuardOk(s, step.t)
    ensures SameCounted(s, Apply(s, step))
  {
    if step.TakeGuard? {
      TakeGuardCounted(s, step.t, step.key);
    } else if step.VisitOwner? {
      VisitOwnerCounted(s, step.t, step.node);
    }
  }

  ghost predicate SameCounted(s: State, s': State) {
    AccountedIn(s') == AccountedIn(s) && s'.guarded.Keys <= s'.blocks.Keys && s'.counters == s.counters
  }

  lemma TakeGuardCounted(s: State, t: nat, key: BlockKey)
    requires Enabled(s, TakeGuard(t, key)) && s.guarded.Keys <= s.blocks.Keys
    ensures SameCounted(s, AfterTakeGuard(s, t, key))
  {
  }

  lemma VisitOwnerCounted(s: State, t: nat, node: Node)
    requires Enabled(s, VisitOwner(t, node)) && GuardOk(s, t) && s.guarded.Keys <= s.blocks.Keys
    ensures SameCounted(s, AfterVisitOwner(s, t, node))
  {
  }

  ghost predicate SameAccounts(s: State, s': State) {
    s'.blocks == s.blocks && s'.guarded == s.guarded && s'.counters == s.counters
  }

  lemma AccountedCallStep(s: State, step: Step)
    requires Enabled(s, step) && IsCallStep(step) && !step.InsertOne? && !step.RemoveOne?
    ensures SameAccounts(s, Apply(s, step))
  {
  }

  lemma AccountedNodeStep(s: State, step: Step)
    requires Enabled(s, step) && !IsGuardStep(step) && !IsCallStep(step)
    ensures SameAccounts(s, Apply(s, step))
  {
  }

  lemma AccountedQuietStep(s: State, step: Step)
    requires Enabled(s, step) && !IsGuardStep(step) && !step.InsertOne? && !step.RemoveOne?
    ensures SameAccounts(s, Apply(s, step))
  {
    if IsCallStep(step) { AccountedCallStep(s, step); } else { AccountedNodeStep(s, step); }
  }

  lemma CountsStep(s: State, step: Step)
    requires CountsOk(s) && Enabled(s, step)
    requires step.VisitOwner? || step.DropGuard? ==> GuardOk(s, step.t)
    ensures CountsOk(Apply(s, step))
  {
    if step.InsertOne? {
      InsertOneCounts(s, step.t);
    } else if step.RemoveOne? {
      RemoveOneCounts(s, step.t);
    } else if step.DropGuard? {
      DropGuardCounts(s, step.t);
    } else {
      if IsGuardStep(step) { AccountedGuardStep(s, step); } else { AccountedQuietStep(s, step); }
      CountsFrame(s, Apply(s, step));
    }
  }

  lemma InvStep(s: State, step: Step)
    requires Inv(s) && Enabled(s, step)
    ensures Inv(Apply(s, step))
  {
    if step.TakeoverWrite? { assert TakeoverOk(s, step.t); }
    if step.VisitOwner? || step.DropGuard? { assert GuardOk(s, step.t); }
    TakeoversStep(s, step);
    GuardsStep(s, step);
    CountsStep(s, step);
    if IsCallStep(step) {
      StaleCallStep(s, step);
    } else if IsGuardStep(step) {
      StaleGuardStep(s, step);
    } else {
      StaleNodeStep(s, step);
    }
  }

  lemma {:induction false} InvRun(s: State, steps: seq<Step>)
    requires Inv(s) && ValidRun(s, steps)
    ensures Inv(Run(s, steps))
    decreases |steps|
  {
    if steps != [] {
      InvStep(s, steps[0]);
      InvRun(Apply(s, steps[0]), steps[1..]);
    }
  }

  lemma InvInit(cfg: Config)
    ensures Inv(Init(cfg))
  {
    var acc := AccountedIn(Init(cfg));
    assert forall b | 1 <= b <= 4 :: KeysInBucket(acc, b) == {};
    assert Copies(acc) == {};
  }

  // ------------------------------------------------------------ what every run keeps

  /**
   In every interleaving, a record of a superseded session is stored only while the flag is set or
   some running sweep, unregister or clear is still bound to visit it.
   */
  lemma StaleRecordsArePending(cfg: Config, steps: seq<Step>, key: BlockKey, n: Node)
    requires ValidRun(Init(cfg), steps)
    requires var s := Run(Init(cfg), steps); key in s.blocks && n in s.blocks[key]
    ensures var s := Run(Init(cfg), steps);
            Current(s.nodes, n, s.blocks[key][n]) || Pending(s, key, n)
  {
    InvInit(cfg);
    InvRun(Init(cfg), steps);
  }

  /** So a directory at rest holds records of live sessions only. */
  lemma RestingDirectoryIsCurrent(cfg: Config, steps: seq<Step>)
    requires ValidRun(Init(cfg), steps)
    requires !Run(Init(cfg), steps).reconcile
    requires forall t | t in Run(Init(cfg), steps).active ::
               Run(Init(cfg), steps).active[t].Insert? || Run(Init(cfg), steps).active[t].Remove?
    ensures var s := Run(Init(cfg), steps);
            forall k, n | k in s.blocks && n in s.blocks[k] :: Current(s.nodes, n, s.blocks[k][n])
  {
    var s := Run(Init(cfg), steps);
    forall k, n | k in s.blocks && n in s.blocks[k] ensures Current(s.nodes, n, s.blocks[k][n]) {
      StaleRecordsArePending(cfg, steps, k, n);
    }
  }

  lemma GuardHasHolder(s: State, key: BlockKey)
    requires GuardsOk(s) && key in s.guarded
    ensures s.active != map[]
  {
    var t :| t in s.active && Guards(s.active[t], key);
  }

  /**
   In every interleaving the counters are those of the stored owners, where a key under a held
   guard still counts with the owners it had when the guard was taken; no key is without owners.
   */
  lemma CountersExact(cfg: Config, steps: seq<Step>)
    requires ValidRun(Init(cfg), steps)
    ensures var s := Run(Init(cfg), steps); Balanced(s.counters, AccountedIn(s))
    ensures var s := Run(Init(cfg), steps);
            s.active == map[] ==> Balanced(s.counters, AccountedOf(s.blocks))
  {
    InvInit(cfg);
    InvRun(Init(cfg), steps);
    var s := Run(Init(cfg), steps);
    if s.active == map[] { RestingAccounts(s); }
  }

  lemma RestingAccounts(s: State)
    requires GuardsOk(s) && s.active == map[]
    ensures AccountedIn(s) == AccountedOf(s.blocks)
  {
    if k :| k in s.guarded { GuardHasHolder(s, k); }
  }

  /** Where a stored record of a live session may go in one step. */
  ghost predicate Survives(s: State, s': State, step: Step, key: BlockKey, n: Node)
    requires key in s.blocks && n in s.blocks[key]
  {
    || (key in s'.blocks && n in s'.blocks[key] && s'.blocks[key][n].session == s.blocks[key][n].session)
    || (step.RemoveOne? && At(s, step.t, Remove(n, s.blocks[key][n].session, [key])))
    || (step.VisitOwner? && step.t in s.active && s.active[step.t].ScanKey? && OperatorScan(s.active[step.t].filter))
  }

  predicate OperatorScan(f: Filter) { f.Younger? || f.Nothing? }

  /** Call `t` is removing `r.keys[0]` on behalf of session `r.id` of node `r.node`. */
  predicate At(s: State, t: nat, r: Activity)
    requires r.Remove? && r.keys != []
  {
    && t in s.active && s.active[t].Remove? && s.active[t].keys != []
    && s.active[t].node == r.node && s.active[t].id == r.id && s.active[t].keys[0] == r.keys[0]
  }

  lemma LiveRecordsSurviveCall(s: State, step: Step, key: BlockKey, n: Node)
    requires Enabled(s, step) && IsCallStep(step)
    requires key in s.blocks && n in s.blocks[key] && Current(s.nodes, n, s.blocks[key][n])
    ensures Survives(s, Apply(s, step), step, key, n)
  {
    if step.RemoveOne? {
      LiveSurvivesRemove(s, step.t, key, n);
    } else if step.InsertOne? {
      LiveSurvivesInsert(s, step.t, key, n);
    } else {
      AccountedQuietStep(s, step);
    }
  }

  lemma LiveSurvivesRemove(s: State, t: nat, key: BlockKey, n: Node)
    requires Enabled(s, RemoveOne(t)) && key in s.blocks && n in s.blocks[key]
    ensures Survives(s, AfterRemoveOne(s, t), RemoveOne(t), key, n)
  {
    var a := s.active[t];
    if a.keys != [] && a.keys[0] == key && n != a.node { assert n in WithoutOwner(s.blocks[key], a.node, a.id); }
  }

  lemma LiveSurvivesInsert(s: State, t: nat, key: BlockKey, n: Node)
    requires Enabled(s, InsertOne(t)) && key in s.blocks && n in s.blocks[key] && Current(s.nodes, n, s.blocks[key][n])
    ensures Survives(s, AfterInsertOne(s, t), InsertOne(t), key, n)
  {
  }

  /** A stored record of a live session is lost only to its own session or to an operator's clean-up. */
  lemma LiveRecordsSurvive(s: State, step: Step, key: BlockKey, n: Node)
    requires GuardsOk(s) && Enabled(s, step)
    requires key in s.blocks && n in s.blocks[key] && Current(s.nodes, n, s.blocks[key][n])
    ensures Survives(s, Apply(s, step), step, key, n)
  {
    if IsCallStep(step) {
      LiveRecordsSurviveCall(s, step, key, n);
    } else if step.VisitOwner? {
      LiveSurvivesVisit(s, step.t, step.node, key, n);
    } else if step.DropGuard? {
      assert GuardOk(s, step.t);
      LiveSurvivesDrop(s, step.t, key, n);
    } else if !IsGuardStep(step) {
      AccountedQuietStep(s, step);
    }
  }

  lemma LiveSurvivesDrop(s: State, t: nat, key: BlockKey, n: Node)
    requires Enabled(s, DropGuard(t)) && GuardOk(s, t) && key in s.blocks && n in s.blocks[key]
    ensures Survives(s, AfterDropGuard(s, t), DropGuard(t), key, n)
  {
    OthersKept(s.blocks, s.active[t].key, OwnersOf(s.blocks, s.active[t].key));
  }

  lemma LiveSurvivesVisit(s: State, t: nat, node: Node, key: BlockKey, n: Node)
    requires Enabled(s, VisitOwner(t, node)) && key in s.blocks && n in s.blocks[key]
    requires Current(s.nodes, n, s.blocks[key][n])
    ensures Survives(s, AfterVisitOwner(s, t, node), VisitOwner(t, node), key, n)
  {
  }
}
