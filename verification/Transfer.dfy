/** Moving blocks between a device and pinned host memory: copy descriptors, their coalescing and their effect. */
module Transfer {
  import opened Common

  type Memory = seq<Byte>

  /** Pinned allocations by id. */
  type Host = map<nat, Memory>

  datatype CopyDesc = CopyDesc(device: nat, alloc: nat, offset: nat, size: nat, layer: nat)

  // ------------------------------------------------------------ what copies do

  function Overwrite(m: Memory, at: nat, bytes: Memory): Memory
    requires at + |bytes| <= |m|
  {
    m[..at] + bytes + m[at+|bytes|..]
  }

  predicate Fits(d: CopyDesc, dev: Memory, host: Host) {
    d.device + d.size <= |dev| && d.alloc in host && d.offset + d.size <= |host[d.alloc]|
  }

  predicate AllFit(descs: seq<CopyDesc>, dev: Memory, host: Host) {
    forall i | 0 <= i < |descs| :: Fits(descs[i], dev, host)
  }

  function DeviceBytes(d: CopyDesc, dev: Memory): Memory
    requires d.device + d.size <= |dev|
  {
    dev[d.device..d.device+d.size]
  }

  function HostBytes(d: CopyDesc, host: Host): Memory
    requires d.alloc in host && d.offset + d.size <= |host[d.alloc]|
  {
    host[d.alloc][d.offset..d.offset+d.size]
  }

  ghost predicate SameShape(a: Host, b: Host) {
    a.Keys == b.Keys && forall x | x in a :: |a[x]| == |b[x]|
  }

  function CopyToHost(dev: Memory, host: Host, d: CopyDesc): Host
    requires Fits(d, dev, host)
  {
    host[d.alloc := Overwrite(host[d.alloc], d.offset, DeviceBytes(d, dev))]
  }

  function CopyToDevice(dev: Memory, host: Host, d: CopyDesc): Memory
    requires Fits(d, dev, host)
  {
    Overwrite(dev, d.device, HostBytes(d, host))
  }

  /** Host memory after the copies ran, in order, from the device. */
  function ToHost(dev: Memory, host: Host, descs: seq<CopyDesc>): (h: Host)
    requires AllFit(descs, dev, host)
    ensures SameShape(h, host)
  {
    if descs == [] then host
    else
      var before := ToHost(dev, host, descs[..|descs|-1]);
      assert Fits(descs[|descs|-1], dev, host);
      CopyToHost(dev, before, descs[|descs|-1])
  }

  /** Device memory after the copies ran, in order, to the device. */
  function ToDevice(dev: Memory, host: Host, descs: seq<CopyDesc>): (m: Memory)
    requires AllFit(descs, dev, host)
    ensures |m| == |dev|
  {
    if descs == [] then dev
    else
      var before := ToDevice(dev, host, descs[..|descs|-1]);
      assert Fits(descs[|descs|-1], dev, host);
      CopyToDevice(before, host, descs[|descs|-1])
  }

  lemma LastCopy(dev: Memory, host: Host, descs: seq<CopyDesc>, d: CopyDesc)
    requires AllFit(descs, dev, host) && Fits(d, dev, host)
    ensures AllFit(descs + [d], dev, host)
    ensures Fits(d, dev, ToHost(dev, host, descs)) && Fits(d, ToDevice(dev, host, descs), host)
    ensures ToHost(dev, host, descs + [d]) == CopyToHost(dev, ToHost(dev, host, descs), d)
    ensures ToDevice(dev, host, descs + [d]) == CopyToDevice(ToDevice(dev, host, descs), host, d)
  {
    assert (descs + [d])[..|descs|] == descs;
  }

  lemma OverwriteSame(m: Memory, at: nat, bytes: Memory)
    requires at + |bytes| <= |m|
    ensures Overwrite(m, at, bytes)[at..at+|bytes|] == bytes
  {
  }

  lemma OverwriteOther(m: Memory, at: nat, bytes: Memory, lo: nat, hi: nat)
    requires at + |bytes| <= |m| && lo <= hi <= |m| && (hi <= at || at + |bytes| <= lo)
    ensures Overwrite(m, at, bytes)[lo..hi] == m[lo..hi]
  {
  }

  lemma OverwriteTwice(m: Memory, at: nat, x: Memory, y: Memory)
    requires at + |x| + |y| <= |m|
    ensures Overwrite(Overwrite(m, at, x), at + |x|, y) == Overwrite(m, at, x + y)
  {
  }

  predicate InHost(d: CopyDesc, alloc: nat, i: nat) { d.alloc == alloc && d.offset <= i < d.offset + d.size }

  predicate InDevice(d: CopyDesc, i: nat) { d.device <= i < d.device + d.size }

  /** A host byte outside every copy keeps its value. */
  lemma {:induction false} HostKept(dev: Memory, host: Host, descs: seq<CopyDesc>, alloc: nat, i: nat)
    requires AllFit(descs, dev, host) && alloc in host && i < |host[alloc]|
    requires forall k | 0 <= k < |descs| :: !InHost(descs[k], alloc, i)
    ensures ToHost(dev, host, descs)[alloc][i] == host[alloc][i]
  {
    if descs != [] {
      var d := descs[|descs|-1];
      HostKept(dev, host, descs[..|descs|-1], alloc, i);
      assert !InHost(d, alloc, i);
    }
  }

  lemma {:induction false} DeviceKept(dev: Memory, host: Host, descs: seq<CopyDesc>, i: nat)
    requires AllFit(descs, dev, host) && i < |dev|
    requires forall k | 0 <= k < |descs| :: !InDevice(descs[k], i)
    ensures ToDevice(dev, host, descs)[i] == dev[i]
  {
    if descs != [] {
      var d := descs[|descs|-1];
      DeviceKept(dev, host, descs[..|descs|-1], i);
      assert !InDevice(d, i);
    }
  }

  ghost predicate HostApart(descs: seq<CopyDesc>) {
    forall a, b | 0 <= a < b < |descs| ::
      ApartOnHost(descs[a], descs[b]) || SameCopy(descs[a], descs[b])
  }

  ghost predicate DeviceApart(descs: seq<CopyDesc>) {
    forall a, b | 0 <= a < b < |descs| ::
      ApartOnDevice(descs[a], descs[b])
  }

  predicate ApartOnHost(d: CopyDesc, e: CopyDesc) {
    d.alloc != e.alloc || d.offset + d.size <= e.offset || e.offset + e.size <= d.offset
  }

  predicate SameCopy(d: CopyDesc, e: CopyDesc) {
    d.device == e.device && d.alloc == e.alloc && d.offset == e.offset && d.size == e.size
  }

  predicate ApartOnDevice(d: CopyDesc, e: CopyDesc) { d.device + d.size <= e.device || e.device + e.size <= d.device }

  lemma HostWritten(dev: Memory, host: Host, d: CopyDesc)
    requires Fits(d, dev, host)
    ensures Fits(d, dev, CopyToHost(dev, host, d))
    ensures HostBytes(d, CopyToHost(dev, host, d)) == DeviceBytes(d, dev)
  {
    OverwriteSame(host[d.alloc], d.offset, DeviceBytes(d, dev));
  }

  /** A later copy that lies apart or says the same takes nothing back. */
  lemma HostStays(dev: Memory, host: Host, d: CopyDesc, e: CopyDesc)
    requires Fits(d, dev, host) && Fits(e, dev, host) && HostBytes(d, host) == DeviceBytes(d, dev)
    requires ApartOnHost(d, e) || SameCopy(d, e)
    ensures Fits(d, dev, CopyToHost(dev, host, e))
    ensures HostBytes(d, CopyToHost(dev, host, e)) == DeviceBytes(d, dev)
  {
    if SameCopy(d, e) {
      HostWritten(dev, host, e);
    } else if d.alloc == e.alloc {
      OverwriteOther(host[e.alloc], e.offset, DeviceBytes(e, dev), d.offset, d.offset + d.size);
    }
  }

  /** Copies that do not overlap on the host, or repeat each other, all take effect. */
  lemma {:induction false} HostReceives(dev: Memory, host: Host, descs: seq<CopyDesc>, k: nat)
    requires AllFit(descs, dev, host) && HostApart(descs) && k < |descs|
    ensures Fits(descs[k], dev, ToHost(dev, host, descs))
    ensures HostBytes(descs[k], ToHost(dev, host, descs)) == DeviceBytes(descs[k], dev)
  {
    var n := |descs| - 1;
    var d, e := descs[k], descs[n];
    var before := ToHost(dev, host, descs[..n]);
    assert Fits(d, dev, host) && Fits(e, dev, host);
    if k < n {
      HostReceives(dev, host, descs[..n], k);
      HostStays(dev, before, d, e);
    } else {
      HostWritten(dev, before, e);
    }
  }

  lemma DeviceStays(dev: Memory, host: Host, d: CopyDesc, e: CopyDesc)
    requires Fits(d, dev, host) && Fits(e, dev, host) && ApartOnDevice(d, e)
    ensures Fits(d, CopyToDevice(dev, host, e), host)
    ensures DeviceBytes(d, CopyToDevice(dev, host, e)) == DeviceBytes(d, dev)
  {
    OverwriteOther(dev, e.device, HostBytes(e, host), d.device, d.device + d.size);
  }

  /** Copies that do not overlap on the device all take effect. */
  lemma {:induction false} DeviceReceives(dev: Memory, host: Host, descs: seq<CopyDesc>, k: nat)
    requires AllFit(descs, dev, host) && DeviceApart(descs) && k < |descs|
    ensures Fits(descs[k], ToDevice(dev, host, descs), host)
    ensures DeviceBytes(descs[k], ToDevice(dev, host, descs)) == HostBytes(descs[k], host)
  {
    var n := |descs| - 1;
    var d, e := descs[k], descs[n];
    var before := ToDevice(dev, host, descs[..n]);
    assert Fits(d, dev, host) && Fits(e, dev, host);
    if k < n {
      DeviceReceives(dev, host, descs[..n], k);
      DeviceStays(before, host, d, e);
    } else {
      OverwriteSame(before, e.device, HostBytes(e, host));
    }
  }

  /** Byte by byte: a copy to the host. */
  lemma HostReceivesBytes(dev: Memory, host: Host, descs: seq<CopyDesc>, k: nat, i: nat)
    requires AllFit(descs, dev, host) && HostApart(descs) && k < |descs| && i < descs[k].size
    ensures var d, h := descs[k], ToHost(dev, host, descs);
            && d.alloc in h && d.offset + i < |h[d.alloc]| && d.device + i < |dev|
            && h[d.alloc][d.offset + i] == dev[d.device + i]
  {
    var d, h := descs[k], ToHost(dev, host, descs);
    HostReceives(dev, host, descs, k);
    assert HostBytes(d, h)[i] == DeviceBytes(d, dev)[i];
  }

  /** Byte by byte: a copy to the device. */
  lemma DeviceReceivesBytes(dev: Memory, host: Host, descs: seq<CopyDesc>, k: nat, i: nat)
    requires AllFit(descs, dev, host) && DeviceApart(descs) && k < |descs| && i < descs[k].size
    ensures var d, m := descs[k], ToDevice(dev, host, descs);
            && d.alloc in host && d.offset + i < |host[d.alloc]| && d.device + i < |m|
            && m[d.device + i] == host[d.alloc][d.offset + i]
  {
    var d, m := descs[k], ToDevice(dev, host, descs);
    DeviceReceives(dev, host, descs, k);
    assert DeviceBytes(d, m)[i] == HostBytes(d, host)[i];
  }

  // ------------------------------------------------------------ coalescing

  /** Copies `a` and then `b` can be replaced by one copy. */
  predicate Adjoins(a: CopyDesc, b: CopyDesc) {
    a.layer == b.layer && a.alloc == b.alloc && a.device + a.size == b.device && a.offset + a.size == b.offset
  }

  function Joined(a: CopyDesc, b: CopyDesc): CopyDesc { a.(size := a.size + b.size) }

  /** On any memories the two lists have the same effect, in both directions. */
  ghost predicate SameEffect(a: seq<CopyDesc>, b: seq<CopyDesc>) {
    forall dev, host | AllFit(a, dev, host) ::
      AllFit(b, dev, host) && ToHost(dev, host, a) == ToHost(dev, host, b)
          && ToDevice(dev, host, a) == ToDevice(dev, host, b)
  }

  lemma FitBoth(dev: Memory, host: Host, a: seq<CopyDesc>, b: seq<CopyDesc>)
    requires AllFit(a, dev, host) && AllFit(b, dev, host)
    ensures AllFit(a + b, dev, host)
    ensures AllFit(b, dev, ToHost(dev, host, a)) && AllFit(b, ToDevice(dev, host, a), host)
  {
    var h, m := ToHost(dev, host, a), ToDevice(dev, host, a);
    forall i | 0 <= i < |b| ensures Fits(b[i], dev, h) && Fits(b[i], m, host) { assert Fits(b[i], dev, host); }
  }

  lemma {:induction false} HostSequenced(dev: Memory, host: Host, a: seq<CopyDesc>, b: seq<CopyDesc>)
    requires AllFit(a, dev, host) && AllFit(b, dev, host)
    ensures AllFit(a + b, dev, host) && AllFit(b, dev, ToHost(dev, host, a))
    ensures ToHost(dev, host, a + b) == ToHost(dev, ToHost(dev, host, a), b)
  {
    FitBoth(dev, host, a, b);
    if b == [] {
      assert a + b == a;
    } else {
      var front, d := b[..|b|-1], b[|b|-1];
      assert b == front + [d] && a + b == (a + front) + [d];
      HostSequenced(dev, host, a, front);
      LastCopy(dev, host, a + front, d);
      LastCopy(dev, ToHost(dev, host, a), front, d);
    }
  }

  lemma {:induction false} DeviceSequenced(dev: Memory, host: Host, a: seq<CopyDesc>, b: seq<CopyDesc>)
    requires AllFit(a, dev, host) && AllFit(b, dev, host)
    ensures AllFit(a + b, dev, host) && AllFit(b, ToDevice(dev, host, a), host)
    ensures ToDevice(dev, host, a + b) == ToDevice(ToDevice(dev, host, a), host, b)
  {
    FitBoth(dev, host, a, b);
    if b == [] {
      assert a + b == a;
    } else {
      var front, d := b[..|b|-1], b[|b|-1];
      assert b == front + [d] && a + b == (a + front) + [d];
      DeviceSequenced(dev, host, a, front);
      LastCopy(dev, host, a + front, d);
      LastCopy(ToDevice(dev, host, a), host, front, d);
    }
  }

  lemma SplitFit(dev: Memory, host: Host, a: seq<CopyDesc>, b: seq<CopyDesc>)
    requires AllFit(a + b, dev, host)
    ensures AllFit(a, dev, host) && AllFit(b, dev, host)
  {
    forall i | 0 <= i < |a| ensures Fits(a[i], dev, host) { assert a[i] == (a + b)[i]; }
    forall i | 0 <= i < |b| ensures Fits(b[i], dev, host) { assert b[i] == (a + b)[|a| + i]; }
  }

  /** Replacing both halves of a list by lists of the same effect keeps the effect. */
  lemma EffectCompose(a: seq<CopyDesc>, b: seq<CopyDesc>, c: seq<CopyDesc>, d: seq<CopyDesc>)
    requires SameEffect(a, b) && SameEffect(c, d)
    ensures SameEffect(a + c, b + d)
  {
    forall dev, host | AllFit(a + c, dev, host)
      ensures AllFit(b + d, dev, host) && ToHost(dev, host, a + c) == ToHost(dev, host, b + d)
      ensures ToDevice(dev, host, a + c) == ToDevice(dev, host, b + d)
    {
      SplitFit(dev, host, a, c);
      HostSequenced(dev, host, a, c);
      HostSequenced(dev, host, b, d);
      DeviceSequenced(dev, host, a, c);
      DeviceSequenced(dev, host, b, d);
    }
  }

  lemma JoinTwo(a: CopyDesc, b: CopyDesc)
    requires Adjoins(a, b)
    ensures SameEffect([a, b], [Joined(a, b)])
  {
    forall dev, host | AllFit([a, b], dev, host)
      ensures AllFit([Joined(a, b)], dev, host)
      ensures ToHost(dev, host, [a, b]) == ToHost(dev, host, [Joined(a, b)])
      ensures ToDevice(dev, host, [a, b]) == ToDevice(dev, host, [Joined(a, b)])
    {
      assert Fits([a, b][0], dev, host) && Fits([a, b][1], dev, host);
      assert Fits(Joined(a, b), dev, host);
      OneCopy(dev, host, Joined(a, b));
      TwoCopies(dev, host, a, b);
      JoinHost(dev, host, a, b);
      JoinDevice(dev, host, a, b);
    }
  }

  lemma OneCopy(dev: Memory, host: Host, d: CopyDesc)
    requires Fits(d, dev, host)
    ensures AllFit([d], dev, host)
    ensures ToHost(dev, host, [d]) == CopyToHost(dev, host, d) && ToDevice(dev, host, [d]) == CopyToDevice(dev, host, d)
  {
    LastCopy(dev, host, [], d);
    assert [] + [d] == [d];
  }

  lemma TwoCopies(dev: Memory, host: Host, a: CopyDesc, b: CopyDesc)
    requires Fits(a, dev, host) && Fits(b, dev, host)
    ensures AllFit([a, b], dev, host) && Fits(b, dev, CopyToHost(dev, host, a))
            && Fits(b, CopyToDevice(dev, host, a), host)
    ensures ToHost(dev, host, [a, b]) == CopyToHost(dev, CopyToHost(dev, host, a), b)
    ensures ToDevice(dev, host, [a, b]) == CopyToDevice(CopyToDevice(dev, host, a), host, b)
  {
    OneCopy(dev, host, a);
    LastCopy(dev, host, [a], b);
    assert [a] + [b] == [a, b];
  }

  lemma JoinHost(dev: Memory, host: Host, a: CopyDesc, b: CopyDesc)
    requires Adjoins(a, b) && Fits(a, dev, host) && Fits(b, dev, CopyToHost(dev, host, a))
             && Fits(Joined(a, b), dev, host)
    ensures CopyToHost(dev, CopyToHost(dev, host, a), b) == CopyToHost(dev, host, Joined(a, b))
  {
    var x, y := DeviceBytes(a, dev), DeviceBytes(b, dev);
    assert DeviceBytes(Joined(a, b), dev) == x + y;
    OverwriteTwice(host[a.alloc], a.offset, x, y);
  }

  lemma JoinDevice(dev: Memory, host: Host, a: CopyDesc, b: CopyDesc)
    requires Adjoins(a, b) && Fits(a, dev, host) && Fits(b, CopyToDevice(dev, host, a), host)
             && Fits(Joined(a, b), dev, host)
    ensures CopyToDevice(CopyToDevice(dev, host, a), host, b) == CopyToDevice(dev, host, Joined(a, b))
  {
    var x, y := HostBytes(a, host), HostBytes(b, host);
    assert HostBytes(Joined(a, b), host) == x + y;
    OverwriteTwice(dev, a.device, x, y);
  }

  lemma JoinInto(before: seq<CopyDesc>, run: CopyDesc, out: seq<CopyDesc>, next: CopyDesc)
    requires SameEffect(before, out + [run]) && Adjoins(run, next)
    ensures SameEffect(before + [next], out + [Joined(run, next)])
  {
    assert SameEffect([next], [next]);
    EffectCompose(before, out + [run], [next], [next]);
    assert SameEffect(out, out);
    JoinTwo(run, next);
    EffectCompose(out, out, [run, next], [Joined(run, next)]);
    assert out + [run] + [next] == out + [run, next];
    SameEffectTransitive(before + [next], out + [run, next], out + [Joined(run, next)]);
  }

  lemma SameEffectTransitive(a: seq<CopyDesc>, b: seq<CopyDesc>, c: seq<CopyDesc>)
    requires SameEffect(a, b) && SameEffect(b, c)
    ensures SameEffect(a, c)
  {
  }

  /** One ends where the other begins, on both sides, in the same allocations. */
  ghost predicate Continues(a: CopyDesc, b: CopyDesc) {
    a.layer == b.layer && a.alloc == b.alloc && b.device == a.device + a.size && b.offset == a.offset + a.size
  }

  /** `d` covers the run: copies that continue one another, from the start of the first to the end of the last. */
  ghost predicate Covers(run: seq<CopyDesc>, d: CopyDesc) {
    && run != [] && d.layer == run[0].layer && d.alloc == run[0].alloc
    && d.device == run[0].device && d.offset == run[0].offset
    && (forall i | 0 < i < |run| :: Continues(run[i-1], run[i]))
    && d.device + d.size == run[|run|-1].device + run[|run|-1].size
  }

  /** Copy `k` of the result covers the copies from `cuts[k]` up to the next cut. */
  ghost predicate CoversAt(copies: seq<CopyDesc>, cuts: seq<nat>, out: seq<CopyDesc>, k: nat) {
    && k < |out| && k + 1 < |cuts| && cuts[k] < cuts[k+1] <= |copies|
    && Covers(copies[cuts[k]..cuts[k+1]], out[k])
    && (k + 1 < |out| ==> !Continues(out[k], out[k+1]))
  }

  /** The result covers the first `n` copies run by run, and no run could have gone on. */
  ghost predicate CutAt(copies: seq<CopyDesc>, n: nat, cuts: seq<nat>, out: seq<CopyDesc>) {
    && |cuts| == |out| + 1 && cuts[0] == 0 && cuts[|out|] == n
    && forall k: nat | k < |out| :: CoversAt(copies, cuts, out, k)
  }

  lemma CoversMore(copies: seq<CopyDesc>, i: nat, j: nat, run: CopyDesc)
    requires i < j < |copies| && Covers(copies[i..j], run) && Adjoins(run, copies[j])
    ensures Covers(copies[i..j+1], Joined(run, copies[j]))
  {
    var before, after := copies[i..j], copies[i..j+1];
    assert after == before + [copies[j]];
    forall k | 0 < k < |after| ensures Continues(after[k-1], after[k]) {
      if k < |before| { assert Continues(before[k-1], before[k]); } else { LastContinues(before, run, copies[j]); }
    }
  }

  lemma LastContinues(run: seq<CopyDesc>, d: CopyDesc, next: CopyDesc)
    requires Covers(run, d) && Adjoins(d, next)
    ensures Continues(run[|run|-1], next)
  {
    SameStart(run, d, |run| - 1);
  }

  /** All copies of a run are shifted alike on both sides. */
  lemma {:induction false} SameStart(run: seq<CopyDesc>, d: CopyDesc, i: nat)
    requires Covers(run, d) && i < |run|
    ensures run[i].layer == d.layer && run[i].alloc == d.alloc && run[i].device - d.device == run[i].offset - d.offset
  {
    if i > 0 {
      SameStart(run, d, i - 1);
      assert Continues(run[i-1], run[i]);
    }
  }

  lemma CutMore(copies: seq<CopyDesc>, n: nat, cuts: seq<nat>, out: seq<CopyDesc>, j: nat, run: CopyDesc)
    requires CutAt(copies, n, cuts, out) && n < j <= |copies| && Covers(copies[n..j], run)
    requires out != [] ==> !Continues(out[|out|-1], run)
    ensures CutAt(copies, j, cuts + [j], out + [run])
  {
    var all, more := out + [run], cuts + [j];
    forall k: nat | k < |all| ensures CoversAt(copies, more, all, k) {
      if k < |out| { assert CoversAt(copies, cuts, out, k); }
    }
  }

  ghost predicate EndsBefore(out: seq<CopyDesc>, next: CopyDesc) { out == [] || !Adjoins(out[|out|-1], next) }

  /** Extends the run that starts at `i` as far as copies adjoin it. */
  method ExtendRun(copies: seq<CopyDesc>, i: nat, ghost out: seq<CopyDesc>) returns (run: CopyDesc, j: nat)
    requires i < |copies| && SameEffect(copies[..i], out)
    ensures i < j <= |copies| && run == copies[i].(size := run.size)
    ensures SameEffect(copies[..j], out + [run]) && Covers(copies[i..j], run)
    ensures j < |copies| ==> !Adjoins(run, copies[j])
  {
    run, j := copies[i], i + 1;
    assert copies[..j] == copies[..i] + [run];
    assert SameEffect([run], [run]);
    EffectCompose(copies[..i], out, [run], [run]);
    while j < |copies| && Adjoins(run, copies[j])
      invariant i < j <= |copies| && run == copies[i].(size := run.size)
      invariant SameEffect(copies[..j], out + [run]) && Covers(copies[i..j], run)
    {
      CoversMore(copies, i, j, run);
      JoinInto(copies[..j], run, out, copies[j]);
      assert copies[..j+1] == copies[..j] + [copies[j]];
      run, j := Joined(run, copies[j]), j + 1;
    }
  }

  /** Runs of copies that are contiguous on both sides become one copy each, and no two of those adjoin. */
  method Coalesce(copies: seq<CopyDesc>) returns (out: seq<CopyDesc>)
    ensures SameEffect(copies, out) && exists cuts :: CutAt(copies, |copies|, cuts, out)
  {
    out := [];
    ghost var cuts := [0];
    var i := 0;
    while i < |copies|
      invariant 0 <= i <= |copies|
      invariant SameEffect(copies[..i], out) && CutAt(copies, i, cuts, out)
      invariant i < |copies| ==> EndsBefore(out, copies[i])
    {
      var run, j := ExtendRun(copies, i, out);
      CutMore(copies, i, cuts, out, j, run);
      out, i, cuts := out + [run], j, cuts + [j];
    }
    assert copies[..|copies|] == copies;
  }
}
