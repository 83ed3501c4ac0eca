/** The MetaServer block directory: stored records, guarded updates of one block, redundancy counters. */
module Directory {
  import opened Common

  type Node = string

  /** A process that speaks for a node; a restarted node has a new one. */
  type Session = nat

  datatype OwnerRecord = OwnerRecord(session: Session, registered: nat)

  datatype NodeRecord = NodeRecord(session: Session, lastSeen: nat, idleSince: Option<nat>)

  datatype StoreError = UnknownNode | StaleSession

  datatype Config = Config(staleAfter: nat, ttl: nat, minReclaimable: nat)

  type Owners = map<Node, OwnerRecord>

  type Blocks = map<BlockKey, Owners>

  type Nodes = map<Node, NodeRecord>

  /** The record was written by the session that speaks for its node now. */
  predicate Current(nodes: Nodes, n: Node, o: OwnerRecord) {
    n in nodes && nodes[n].session == o.session
  }

  predicate Visible(nodes: Nodes, cfg: Config, n: Node, o: OwnerRecord, now: nat) {
    Current(nodes, n, o) && Age(now, nodes[n].lastSeen) <= cfg.staleAfter
  }

  function OwnersOf(blocks: Blocks, key: BlockKey): Owners {
    if key in blocks then blocks[key] else map[]
  }

  /** Store `owners` under `key`; a key never keeps an empty owner map. */
  function WithOwners(blocks: Blocks, key: BlockKey, owners: Owners): Blocks {
    if owners == map[] then blocks - {key} else blocks[key := owners]
  }

  /** A session removes only the record it wrote. */
  function WithoutOwner(owners: Owners, n: Node, id: Session): Owners {
    if n in owners && owners[n].session == id then owners - {n} else owners
  }

  // ---------------------------------------------------------------- counters

  /** The redundancy counters; `underflow` records that some `fetch_sub` took more than its counter held. */
  datatype Counters =
    Counters(keys1: int, keys2: int, keys3: int, keys4plus: int, copies: int, underflow: bool)

  function Bucket(count: nat): nat { Min(count, 4) }

  function BucketValue(c: Counters, count: nat): int {
    match Bucket(count)
    case 0 => 0
    case 1 => c.keys1
    case 2 => c.keys2
    case 3 => c.keys3
    case _ => c.keys4plus
  }

  function AdjustBucket(c: Counters, count: nat, delta: int): Counters {
    if count == 0 then c
    else if count == 1 then c.(keys1 := c.keys1 + delta)
    else if count == 2 then c.(keys2 := c.keys2 + delta)
    else if count == 3 then c.(keys3 := c.keys3 + delta)
    else c.(keys4plus := c.keys4plus + delta)
  }

  /** No `fetch_sub` of `Adjust` takes more than the counter holds. */
  predicate AdjustSafe(c: Counters, before: nat, after: nat) {
    before != after ==>
      && (before > 0 ==> BucketValue(c, before) >= 1)
      && (after < before ==> c.copies >= before - after)
  }

  /** Account for one key going from `before` to `after` owners. */
  function Adjust(c: Counters, before: nat, after: nat): Counters {
    if before == after then c
    else
      var moved := AdjustBucket(AdjustBucket(c, before, -1), after, 1);
      moved.(copies := moved.copies + after - before, underflow := c.underflow || !AdjustSafe(c, before, after))
  }

  /** Which nodes the counters have been told about, per key. */
  type Accounted = map<BlockKey, set<Node>>

  /** The keys with `b` owners; the fourth bucket takes all keys with more. */
  ghost function KeysInBucket(acc: Accounted, b: nat): set<BlockKey> {
    set k | k in acc && (if b < 4 then |acc[k]| == b else b == 4 && |acc[k]| >= 4)
  }

  ghost function Copies(acc: Accounted): set<(BlockKey, Node)> {
    set k, n | k in acc && n in acc[k] :: (k, n)
  }

  ghost predicate CountersMatch(c: Counters, acc: Accounted) {
    && c.keys1 == |KeysInBucket(acc, 1)|
    && c.keys2 == |KeysInBucket(acc, 2)|
    && c.keys3 == |KeysInBucket(acc, 3)|
    && c.keys4plus == |KeysInBucket(acc, 4)|
    && c.copies == |Copies(acc)|
    && !c.underflow
  }

  /** The counters are exact and no key is left without owners. */
  ghost predicate Balanced(c: Counters, acc: Accounted) {
    CountersMatch(c, acc) && forall k | k in acc :: acc[k] != {}
  }

  ghost function AccountedOf(blocks: Blocks): Accounted {
    map k | k in blocks :: blocks[k].Keys
  }

  ghost function WithNodes(acc: Accounted, key: BlockKey, after: set<Node>): Accounted {
    if after == {} then acc - {key} else acc[key := after]
  }

  lemma {:induction false} PairCount(key: BlockKey, ns: set<Node>)
    ensures |set n | n in ns :: (key, n)| == |ns|
  {
    if ns != {} {
      var x :| x in ns;
      PairCount(key, ns - {x});
      assert (set n | n in ns :: (key, n)) == (set n | n in ns - {x} :: (key, n)) + {(key, x)};
    } else {
      assert (set n | n in ns :: (key, n)) == {};
    }
  }

  lemma SplitOff<T>(s: set<T>, x: T)
    ensures |s| == |s - {x}| + (if x in s then 1 else 0)
  {
    if x in s { assert s == (s - {x}) + {x}; } else { assert s == s - {x}; }
  }

  /** One key's owners decide nothing about the bucket of another key. */
  lemma OtherKeys(acc: Accounted, key: BlockKey, after: set<Node>, b: nat)
    ensures KeysInBucket(acc, b) - {key} == KeysInBucket(WithNodes(acc, key, after), b) - {key}
  {
  }

  lemma OwnBucket(acc: Accounted, key: BlockKey, after: set<Node>, b: nat)
    requires b > 0
    ensures key in KeysInBucket(WithNodes(acc, key, after), b) <==> Bucket(|after|) == b
    ensures key in KeysInBucket(acc, b) <==> Bucket(if key in acc then |acc[key]| else 0) == b
  {
  }

  lemma BucketMove(acc: Accounted, key: BlockKey, after: set<Node>, b: nat)
    requires 1 <= b <= 4
    ensures var before := if key in acc then |acc[key]| else 0;
            |KeysInBucket(WithNodes(acc, key, after), b)| ==
            |KeysInBucket(acc, b)|
            - (if Bucket(before) == b then 1 else 0)
            + (if Bucket(|after|) == b then 1 else 0)
  {
    OtherKeys(acc, key, after, b);
    OwnBucket(acc, key, after, b);
    SplitOff(KeysInBucket(acc, b), key);
    SplitOff(KeysInBucket(WithNodes(acc, key, after), b), key);
  }

  lemma CopiesWithout(acc: Accounted, key: BlockKey)
    ensures |Copies(acc)| == |Copies(acc - {key})| + if key in acc then |acc[key]| else 0
  {
    if key in acc {
      var mine := set n | n in acc[key] :: (key, n);
      PairCount(key, acc[key]);
      assert Copies(acc) == Copies(acc - {key}) + mine;
    } else {
      assert acc - {key} == acc;
    }
  }

  lemma CopiesMove(acc: Accounted, key: BlockKey, after: set<Node>)
    ensures var before := if key in acc then |acc[key]| else 0;
            && |Copies(acc)| >= before
            && |Copies(WithNodes(acc, key, after))| == |Copies(acc)| - before + |after|
  {
    CopiesWithout(acc, key);
    if after != {} {
      CopiesWithout(acc[key := after], key);
      assert acc[key := after] - {key} == acc - {key};
    }
  }

  /** Accounting for one key keeps the counters exact and never underflows. */
  lemma AdjustExact(c: Counters, acc: Accounted, key: BlockKey, before: nat, after: set<Node>)
    requires Balanced(c, acc)
    requires before == if key in acc then |acc[key]| else 0
    ensures Balanced(Adjust(c, before, |after|), WithNodes(acc, key, after))
  {
    BucketExact(c, acc, key, before, after, 1);
    BucketExact(c, acc, key, before, after, 2);
    BucketExact(c, acc, key, before, after, 3);
    BucketExact(c, acc, key, before, after, 4);
    CopiesMove(acc, key, after);
    AdjustIsSafe(c, acc, key, before, |after|);
  }

  /** A counter follows its bucket. */
  lemma BucketExact(c: Counters, acc: Accounted, key: BlockKey, before: nat, after: set<Node>, b: nat)
    requires 1 <= b <= 4 && BucketValue(c, b) == |KeysInBucket(acc, b)|
    requires before == if key in acc then |acc[key]| else 0
    ensures BucketValue(Adjust(c, before, |after|), b) == |KeysInBucket(WithNodes(acc, key, after), b)|
  {
    BucketMove(acc, key, after, b);
    AdjustValue(c, before, |after|, b);
  }

  lemma AdjustValue(c: Counters, before: nat, after: nat, b: nat)
    requires 1 <= b <= 4
    ensures BucketValue(Adjust(c, before, after), b) ==
            BucketValue(c, b) - (if Bucket(before) == b then 1 else 0) + (if Bucket(after) == b then 1 else 0)
  {
  }

  lemma AdjustIsSafe(c: Counters, acc: Accounted, key: BlockKey, before: nat, after: nat)
    requires CountersMatch(c, acc) && before == if key in acc then |acc[key]| else 0
    ensures AdjustSafe(c, before, after)
  {
    CopiesMove(acc, key, {});
    if before > 0 {
      assert key in KeysInBucket(acc, Bucket(before));
      assert |KeysInBucket(acc, Bucket(before))| >= 1;
    }
  }
}
