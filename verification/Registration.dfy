/** Registration of an instance's workers, up to the one that seals it. */
module Registration {
  import opened Common
  import opened Topology
  import opened Sealing

  datatype RegisterError =
    ZeroSize | BadRank | NoLayers | DeviceExists | AlreadySealed | NegativeDevice | CannotSeal(e: SealError)

  ghost predicate Registered(workers: map<nat, Worker>, w: Worker) { exists d | d in workers :: workers[d] == w }

  ghost predicate Lists(list: seq<Worker>, workers: map<nat, Worker>) {
    forall w :: w in list <==> Registered(workers, w)
  }

  method ListWorkers(workers: map<nat, Worker>) returns (list: seq<Worker>)
    ensures Lists(list, workers)
  {
    list := [];
    var left := workers.Keys;
    while left != {}
      invariant left <= workers.Keys
      invariant forall d | d in workers && d !in left :: workers[d] in list
      invariant forall w | w in list :: Registered(workers, w)
      decreases left
    {
      var d :| d in left;
      list, left := list + [workers[d]], left - {d};
    }
  }

  /** `t` is what the registered workers seal to, in some order and hence in every order. */
  ghost predicate SealedBy(t: LayerTopology, workers: map<nat, Worker>, tpSize: nat, pageFirst: bool) {
    exists list :: Lists(list, workers) && Verdict(list, tpSize, pageFirst).None? && Seals(t, list, tpSize, pageFirst)
  }

  /** `r` is the result of sealing exactly these workers. */
  ghost predicate SealResult(r: Result<LayerTopology, SealError>, workers: map<nat, Worker>, tpSize: nat,
                             pageFirst: bool) {
    exists list :: Lists(list, workers) &&
      match Verdict(list, tpSize, pageFirst)
      case Some(e) => r == Err(e)
      case None => r.Ok? && Seals(r.value, list, tpSize, pageFirst)
  }

  method SealWith(workers: map<nat, Worker>, w: Worker, tpSize: nat, pageFirst: bool)
    returns (r: Result<LayerTopology, SealError>)
    requires w.device !in workers && w.tpRank < tpSize && forall d | d in workers :: workers[d].tpRank < tpSize
    ensures SealResult(r, workers[w.device := w], tpSize, pageFirst)
    ensures r.Ok? ==> SealedBy(r.value, workers[w.device := w], tpSize, pageFirst)
  {
    var list := ListWorkers(workers);
    Appended(list, workers, w);
    RanksInRange(list + [w], workers[w.device := w], tpSize);
    r := SealTopology(list + [w], tpSize, pageFirst);
  }

  /** Each method is one section under the instance's lock; other registrations may run between two sections. */
  class Instance {
    const tpSize: nat
    const worldSize: nat
    const pageFirst: bool
    var workers: map<nat, Worker>
    var topology: Option<LayerTopology>

    /** Sealed exactly when all workers are there, and then by exactly those workers. */
    ghost predicate Valid()
      reads this
    {
      && tpSize > 0 && worldSize > 0 && |workers| <= worldSize
      && (forall d | d in workers :: workers[d].device == d && workers[d].tpRank < tpSize && |workers[d].caches| > 0)
      && (topology.Some? <==> |workers| == worldSize)
      && (topology.Some? ==> SealedBy(topology.value, workers, tpSize, pageFirst))
    }

    constructor (tpSize: nat, worldSize: nat, pageFirst: bool)
      requires tpSize > 0 && worldSize > 0
      ensures Valid() && workers == map[] && topology.None?
      ensures this.tpSize == tpSize && this.worldSize == worldSize && this.pageFirst == pageFirst
    {
      this.tpSize, this.worldSize, this.pageFirst := tpSize, worldSize, pageFirst;
      workers, topology := map[], None;
    }

    function Accepting(device: nat): Option<RegisterError>
      reads this
    {
      if device in workers then Some(DeviceExists) else if topology.Some? then Some(AlreadySealed) else None
    }

    /** First section, and what building the GPU context refuses. */
    method Admit(device: int, tpRank: nat, numLayers: nat) returns (r: Option<RegisterError>)
      ensures r.None? <==> tpRank < tpSize && numLayers > 0 && device >= 0 && device !in workers && topology.None?
      ensures r == Some(BadRank) <==> tpRank >= tpSize
      ensures r == Some(NoLayers) <==> tpRank < tpSize && numLayers == 0
      ensures tpRank < tpSize && numLayers > 0 ==>
                && (r == Some(DeviceExists) <==> device in workers)
                && (r == Some(AlreadySealed) <==> device !in workers && topology.Some?)
                && (r == Some(NegativeDevice) <==> device < 0 && topology.None?)
    {
      if tpRank >= tpSize { return Some(BadRank); }
      if numLayers == 0 { return Some(NoLayers); }
      if device < 0 { return Some(if topology.Some? then AlreadySealed else NegativeDevice); }
      r := Accepting(device);
    }

    /** Second section: check again, seal with the last worker, and only then record it. */
    method Complete(w: Worker) returns (r: Result<(), RegisterError>)
      requires Valid() && w.tpRank < tpSize && |w.caches| > 0
      modifies this
      ensures Valid()
      ensures r.Err? ==> workers == old(workers) && topology == old(topology)
      ensures r.Ok? ==> workers == old(workers)[w.device := w] && w.device !in old(workers) && old(topology).None?
      ensures r == Err(DeviceExists) <==> w.device in old(workers)
      ensures r == Err(AlreadySealed) <==> w.device !in old(workers) && old(topology).Some?
      ensures old(Accepting(w.device)).Some? ==> r == Err(old(Accepting(w.device)).value)
      ensures old(Accepting(w.device)).None? && old(|workers|) + 1 < worldSize ==> r.Ok? && topology.None?
      ensures old(Accepting(w.device)).None? && old(|workers|) + 1 == worldSize ==>
                (r.Ok? ==> topology.Some? && SealResult(Ok(topology.value), workers, tpSize, pageFirst)) &&
                (r.Err? ==> r.error.CannotSeal? &&
                            SealResult(Err(r.error.e), old(workers)[w.device := w], tpSize, pageFirst))
    {
      var refused := Accepting(w.device);
      if refused.Some? { return Err(refused.value); }
      var sealing: Option<LayerTopology> := None;
      if |workers| + 1 == worldSize {
        var sealed := SealWith(workers, w, tpSize, pageFirst);
        if sealed.Err? { return Err(CannotSeal(sealed.error)); }
        sealing := Some(sealed.value);
      }
      workers := workers[w.device := w];
      if sealing.Some? { topology := sealing; }
      r := Ok(());
    }
  }

  /** Refuses exactly instances without ranks or without workers. */
  method NewInstance(tpSize: nat, worldSize: nat, pageFirst: bool) returns (r: Result<Instance, RegisterError>)
    ensures r == Err(ZeroSize) <==> tpSize == 0 || worldSize == 0
    ensures r.Err? ==> r.error == ZeroSize
    ensures r.Ok? ==> fresh(r.value) && r.value.Valid() && r.value.workers == map[] && r.value.topology.None?
                      && r.value.tpSize == tpSize && r.value.worldSize == worldSize && r.value.pageFirst == pageFirst
  {
    if tpSize == 0 || worldSize == 0 { return Err(ZeroSize); }
    var i := new Instance(tpSize, worldSize, pageFirst);
    r := Ok(i);
  }

  lemma RanksInRange(list: seq<Worker>, workers: map<nat, Worker>, tpSize: nat)
    requires Lists(list, workers) && forall d | d in workers :: workers[d].tpRank < tpSize
    ensures forall w | w in list :: w.tpRank < tpSize
  {
    forall w | w in list ensures w.tpRank < tpSize { assert Registered(workers, w); }
  }

  lemma Appended(list: seq<Worker>, workers: map<nat, Worker>, w: Worker)
    requires Lists(list, workers) && w.device !in workers
    ensures Lists(list + [w], workers[w.device := w])
  {
    var after := workers[w.device := w];
    forall v ensures v in list + [w] <==> Registered(after, v) {
      if v in list {
        var d :| d in workers && workers[d] == v;
        assert after[d] == v;
      }
      assert after[w.device] == w;
    }
  }
}
