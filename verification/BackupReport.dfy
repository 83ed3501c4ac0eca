/** What sources report: blocks by namespace, some with a backup already. */
module BackupReport {
  import opened Common
  import opened Directory

  datatype Group = Group(ns: string, blockBytes: U64, hashes: seq<Hash>)

  /** What stays fixed between two reports: the roles, the scores, and who visibly owns which block. */
  datatype World = World(
    sources: seq<Node>,
    targets: seq<Node>,
    pairScore: (Node, Node) -> nat,
    blockScore: (Node, Hash) -> nat,
    visible: BlockKey -> set<Node>
  )

  predicate Held(w: World, source: Node, key: BlockKey) { source in w.visible(key) }

  predicate Backed(w: World, key: BlockKey) { exists t | t in w.targets :: t in w.visible(key) }

  /** Worth copying: the source still holds it and no target does. */
  predicate Dispatchable(w: World, source: Node, key: BlockKey) { Held(w, source, key) && !Backed(w, key) }

  /** The same, told by who visibly owns the block. */
  ghost predicate WorthCopying(w: World, source: Node, key: BlockKey) {
    source in w.visible(key) && forall t | t in w.targets :: t !in w.visible(key)
  }

  function NonEmpty(groups: seq<Group>): seq<Group> {
    if groups == [] then [] else (if groups[0].hashes == [] then [] else [groups[0]]) + NonEmpty(groups[1..])
  }

  function Select(xs: seq<Hash>, p: Hash -> bool): seq<Hash> {
    if xs == [] then [] else Select(xs[..|xs|-1], p) + if p(xs[|xs|-1]) then [xs[|xs|-1]] else []
  }

  lemma {:induction false} SelectHas(xs: seq<Hash>, p: Hash -> bool, h: Hash)
    ensures h in Select(xs, p) <==> h in xs && p(h)
  {
    if xs != [] {
      SelectHas(xs[..|xs|-1], p, h);
      assert xs == xs[..|xs|-1] + [xs[|xs|-1]];
    }
  }

  ghost predicate SelectedAt(xs: seq<Hash>, p: Hash -> bool, ys: seq<Hash>, at: seq<nat>) {
    && |at| == |ys| && (forall k, m | 0 <= k < m < |at| :: at[k] < at[m])
    && (forall m | 0 <= m < |at| :: at[m] < |xs| && ys[m] == xs[at[m]])
    && forall j: nat | j < |xs| :: j in at <==> p(xs[j])
  }

  lemma SelectNext(xs: seq<Hash>, p: Hash -> bool, ys: seq<Hash>, at: seq<nat>, x: Hash)
    requires SelectedAt(xs, p, ys, at)
    ensures SelectedAt(xs + [x], p, ys + if p(x) then [x] else [], at + if p(x) then [|xs|] else [])
  {
    var more, all := at + (if p(x) then [|xs|] else []), xs + [x];
    forall j: nat | j < |all| ensures j in more <==> p(all[j]) {
      if j < |xs| { assert all[j] == xs[j] && (j in more <==> j in at); }
    }
  }

  /** What is selected are the elements that satisfy the predicate, as often and in the order given. */
  lemma {:induction false} SelectExactly(xs: seq<Hash>, p: Hash -> bool) returns (at: seq<nat>)
    ensures SelectedAt(xs, p, Select(xs, p), at)
  {
    at := [];
    if xs != [] {
      var front, x := xs[..|xs|-1], xs[|xs|-1];
      at := SelectExactly(front, p);
      SelectNext(front, p, Select(front, p), at, x);
      at := at + if p(x) then [|front|] else [];
      assert xs == front + [x];
    }
  }

  lemma NonEmptyOne(g: Group)
    ensures NonEmpty([g]) == if g.hashes == [] then [] else [g]
  {
    assert [g][1..] == [];
  }

  function IsBacked(w: World, ns: string): Hash -> bool { (h: Hash) => Backed(w, BlockKey(ns, h)) }

  function NotBacked(w: World, ns: string): Hash -> bool { (h: Hash) => !Backed(w, BlockKey(ns, h)) }

  function Picked(w: World, g: Group, backed: bool): seq<Hash> {
    if backed then Select(g.hashes, IsBacked(w, g.ns)) else Select(g.hashes, NotBacked(w, g.ns))
  }

  /** The blocks of a report that have a backup, or those that have none; group by group, no group empty. */
  function Portion(w: World, groups: seq<Group>, backed: bool): seq<Group> {
    if groups == [] then []
    else
      var g := groups[|groups|-1];
      Portion(w, groups[..|groups|-1], backed)
      + NonEmpty([g.(hashes := Picked(w, g, backed))])
  }

  ghost predicate HasBackup(w: World, ns: string, hash: Hash) {
    exists t | t in w.targets :: t in w.visible(BlockKey(ns, hash))
  }

  /** `part` is the group with those of its blocks that have a backup, or with those that have none, in order. */
  ghost predicate PartAt(w: World, g: Group, backed: bool, part: Group, at: seq<nat>) {
    && part.ns == g.ns && part.blockBytes == g.blockBytes && |at| == |part.hashes| > 0
    && (forall k, m | 0 <= k < m < |at| :: at[k] < at[m])
    && (forall m | 0 <= m < |at| :: at[m] < |g.hashes| && part.hashes[m] == g.hashes[at[m]])
    && forall j: nat | j < |g.hashes| :: j in at <==> HasBackup(w, g.ns, g.hashes[j]) == backed
  }

  ghost predicate PartOf(w: World, g: Group, backed: bool, part: Group) { exists at :: PartAt(w, g, backed, part, at) }

  /** The parts are those of the groups `of`, in order; groups without such a block have none. */
  ghost predicate PartsAt(w: World, groups: seq<Group>, backed: bool, parts: seq<Group>, of: seq<nat>) {
    && |of| == |parts| && (forall k, m | 0 <= k < m < |of| :: of[k] < of[m])
    && (forall m | 0 <= m < |of| :: of[m] < |groups| && PartOf(w, groups[of[m]], backed, parts[m]))
    && forall i: nat | i < |groups| && HasPart(w, groups[i], backed) :: i in of
  }

  /** The blocks of a report that have a backup, or those that have none. */
  ghost predicate Parts(w: World, groups: seq<Group>, backed: bool, parts: seq<Group>) {
    exists of :: PartsAt(w, groups, backed, parts, of)
  }

  lemma SelectedPart(w: World, g: Group, backed: bool)
    ensures var hashes := Picked(w, g, backed);
            && (hashes != [] ==> PartOf(w, g, backed, g.(hashes := hashes)))
            && (hashes == [] ==> !HasPart(w, g, backed))
  {
    var p := if backed then IsBacked(w, g.ns) else NotBacked(w, g.ns);
    var at := SelectExactly(g.hashes, p);
    forall j: nat | j < |g.hashes| ensures j in at <==> HasBackup(w, g.ns, g.hashes[j]) == backed {
      assert p(g.hashes[j]) == (Backed(w, BlockKey(g.ns, g.hashes[j])) == backed);
    }
    if Select(g.hashes, p) != [] { assert PartAt(w, g, backed, g.(hashes := Select(g.hashes, p)), at); }
  }

  /** The group has such a block. */
  ghost predicate HasPart(w: World, g: Group, backed: bool) {
    exists j | 0 <= j < |g.hashes| :: HasBackup(w, g.ns, g.hashes[j]) == backed
  }

  lemma SkipGroup(w: World, groups: seq<Group>, backed: bool, parts: seq<Group>, of: seq<nat>)
    requires groups != [] && PartsAt(w, groups[..|groups|-1], backed, parts, of)
    requires !HasPart(w, groups[|groups|-1], backed)
    ensures PartsAt(w, groups, backed, parts, of)
  {
    forall i: nat | i < |groups| && HasPart(w, groups[i], backed) ensures i in of {
      assert groups[..|groups|-1][i] == groups[i];
    }
  }

  lemma AddPart(w: World, groups: seq<Group>, backed: bool, parts: seq<Group>, of: seq<nat>, part: Group)
    requires groups != [] && PartsAt(w, groups[..|groups|-1], backed, parts, of)
    requires PartOf(w, groups[|groups|-1], backed, part)
    ensures PartsAt(w, groups, backed, parts + [part], of + [|groups| - 1])
  {
    var n := |groups| - 1;
    forall i: nat | i < |groups| && HasPart(w, groups[i], backed) ensures i in of + [n] {
      if i < n { assert groups[..n][i] == groups[i]; }
    }
  }

  lemma PortionNext(w: World, groups: seq<Group>, backed: bool, of: seq<nat>)
    requires groups != []
    requires PartsAt(w, groups[..|groups|-1], backed, Portion(w, groups[..|groups|-1], backed), of)
    ensures Parts(w, groups, backed, Portion(w, groups, backed))
  {
    var before, g := Portion(w, groups[..|groups|-1], backed), groups[|groups|-1];
    var part := g.(hashes := Picked(w, g, backed));
    SelectedPart(w, g, backed);
    NonEmptyOne(part);
    if part.hashes == [] {
      SkipGroup(w, groups, backed, before, of);
      assert before + [] == before;
    } else {
      AddPart(w, groups, backed, before, of, part);
    }
  }

  /** A report falls into the blocks with and those without a backup. */
  lemma {:induction false} PortionExactly(w: World, groups: seq<Group>, backed: bool)
    ensures Parts(w, groups, backed, Portion(w, groups, backed))
  {
    if groups == [] {
      assert PartsAt(w, groups, backed, [], []);
    } else {
      var front := groups[..|groups|-1];
      PortionExactly(w, front, backed);
      var of :| PartsAt(w, front, backed, Portion(w, front, backed), of);
      PortionNext(w, groups, backed, of);
    }
  }
}
