/** HyperLogLog registers: the shifts and masks on hash bytes against the bit stream they stand for. */
module HyperLogLog {
  import opened Common
  import opened Seqs
  import opened Bits

  // ------------------------------------------------------------ hashes as bit streams

  function ByteOrZero(hash: Hash, i: nat): Byte { if i < |hash| then hash[i] else 0 }

  function BitsOf(bytes: seq<Byte>): (bits: seq<bool>)
    ensures |bits| == 8 * |bytes|
  {
    if bytes == [] then [] else BitsOf(bytes[..|bytes|-1]) + ToBits(bytes[|bytes|-1], 8)
  }

  function Head(hash: Hash, n: nat): (bytes: seq<Byte>)
    ensures |bytes| == n
  {
    seq(n, i requires 0 <= i => ByteOrZero(hash, i))
  }

  function Tail(hash: Hash): seq<Byte> { if |hash| > 4 then hash[4..] else [] }

  /** The hash as a bit stream, short hashes padded with zeros to 32 bits. */
  function Stream(hash: Hash): (bits: seq<bool>)
    ensures |bits| >= 32
  {
    BitsOf(Head(hash, 4)) + BitsOf(Tail(hash))
  }

  predicate ValidBits(b: nat) { 4 <= b <= 18 }

  /** Which register a hash belongs to, and how far its first one bit is. */
  function Bucket(hash: Hash, b: nat): nat
    requires ValidBits(b)
  {
    Num(Stream(hash)[..b])
  }

  function FirstOne(hash: Hash, b: nat): nat
    requires ValidBits(b)
  {
    ZeroRun(Stream(hash)[b..]) + 1
  }

  function BigEndianNum(bytes: seq<Byte>): nat {
    if bytes == [] then 0 else BigEndianNum(bytes[..|bytes|-1]) * 256 + bytes[|bytes|-1]
  }

  lemma {:induction false} BigEndianBits(bytes: seq<Byte>)
    ensures Num(BitsOf(bytes)) == BigEndianNum(bytes)
  {
    if bytes != [] {
      BigEndianBits(bytes[..|bytes|-1]);
      var last := bytes[|bytes|-1];
      NumAppend(BitsOf(bytes[..|bytes|-1]), ToBits(last, 8));
      ByteNum(last);
    }
  }

  // ------------------------------------------------------------ what the code computes

  /** Top bits of the first three bytes. */
  function BucketIndex(hash: Hash, b: nat): nat
    requires ValidBits(b)
  {
    ShiftRight(BigEndianNum(Head(hash, 3)), 24 - b)
  }

  lemma StreamStart(hash: Hash, b: nat)
    requires b <= 24
    ensures Stream(hash)[..b] == BitsOf(Head(hash, 3))[..b]
  {
    assert Head(hash, 4)[..3] == Head(hash, 3);
  }

  lemma BucketIndexIs(hash: Hash, b: nat)
    requires ValidBits(b)
    ensures BucketIndex(hash, b) == Bucket(hash, b) < Pow2(b)
  {
    var h3 := Head(hash, 3);
    var bits := BitsOf(h3);
    BigEndianBits(h3);
    assert bits == bits[..b] + bits[b..];
    SplitNum(bits[..b], bits[b..]);
    StreamStart(hash, b);
    NumBound(bits[..b]);
  }

  /** Goes on counting through the bytes behind the head; the counter is a byte and wraps. */
  method CountTail(tail: seq<Byte>, start: nat) returns (count: nat)
    ensures count == (start + ZeroRun(BitsOf(tail))) % 256
  {
    count := start % 256;
    for i := 0 to |tail|
      invariant forall k | 0 <= k < i :: tail[k] == 0
      invariant count == (start + 8 * i) % 256
    {
      if tail[i] != 0 {
        var zeros := 8 - BitLength(tail[i]);
        TailZeros(tail, i, zeros);
        WrapRun(start + 8 * i, zeros, start + ZeroRun(BitsOf(tail)));
        count := (count + zeros) % 256;
        return;
      }
      WrapByte(start + 8 * i, 8);
      count := (count + 8) % 256;
    }
    ZeroBytes(tail);
  }

  /** Leading zeros of the 32-bit head behind the mask, or on into the remaining bytes. */
  method CountLeadingZeros(hash: Hash, b: nat) returns (count: nat)
    requires ValidBits(b)
    ensures count == ZeroRun(Stream(hash)[b..]) % 256
  {
    var masked := BigEndianNum(Head(hash, 4)) % Pow2(32 - b);
    MaskedRun(hash, b, masked);
    StreamRun(hash, b);
    if masked != 0 {
      count := 32 - BitLength(masked) - b;
    } else {
      count := CountTail(Tail(hash), 32 - b);
    }
  }

  lemma DropInFirst(a: seq<bool>, c: seq<bool>, b: nat)
    requires b <= |a|
    ensures (a + c)[b..] == a[b..] + c
  {
  }

  /** The mask drops the bucket bits. */
  lemma MaskedRun(hash: Hash, b: nat, masked: nat)
    requires ValidBits(b) && masked == BigEndianNum(Head(hash, 4)) % Pow2(32 - b)
    ensures BitLength(masked) + HeadRun(hash, b) == 32 - b && (masked == 0 <==> HeadRun(hash, b) == 32 - b)
  {
    var bits := BitsOf(Head(hash, 4));
    BigEndianBits(Head(hash, 4));
    assert bits == bits[..b] + bits[b..];
    SplitNum(bits[..b], bits[b..]);
    LeadingZeros(bits[b..]);
  }

  /** Zeros of the head behind the bucket bits. */
  function HeadRun(hash: Hash, b: nat): nat
    requires ValidBits(b)
  {
    ZeroRun(BitsOf(Head(hash, 4))[b..])
  }

  lemma StreamRun(hash: Hash, b: nat)
    requires ValidBits(b)
    ensures HeadRun(hash, b) == HeadRun(hash, b) % 256 <= 32 - b
    ensures ZeroRun(Stream(hash)[b..]) ==
            if HeadRun(hash, b) == 32 - b then 32 - b + ZeroRun(BitsOf(Tail(hash))) else HeadRun(hash, b)
  {
    var bits, tail := BitsOf(Head(hash, 4)), BitsOf(Tail(hash));
    DropInFirst(bits, tail, b);
    ZeroRunAppend(bits[b..], tail);
  }

  lemma {:induction false} ZeroBytes(bytes: seq<Byte>)
    requires forall k | 0 <= k < |bytes| :: bytes[k] == 0
    ensures ZeroRun(BitsOf(bytes)) == 8 * |bytes|
  {
    if bytes != [] {
      ZeroBytes(bytes[..|bytes|-1]);
      ZeroRunAppend(BitsOf(bytes[..|bytes|-1]), ToBits(0, 8));
      ByteNum(0);
      LeadingZeros(ToBits(0, 8));
    }
  }

  lemma {:induction false} BitsOfAppend(a: seq<Byte>, c: seq<Byte>)
    ensures BitsOf(a + c) == BitsOf(a) + BitsOf(c)
  {
    if c == [] {
      assert a + c == a;
    } else {
      FrontOfAppend(a, c);
      BitsOfAppend(a, c[..|c|-1]);
      Associative(BitsOf(a), BitsOf(c[..|c|-1]), ToBits(c[|c|-1], 8));
    }
  }

  /** The zero run ends in the first byte that is not zero. */
  lemma TailRun(t: seq<Byte>, i: nat)
    requires i < |t| && t[i] != 0 && forall k | 0 <= k < i :: t[k] == 0
    ensures ZeroRun(BitsOf(t)) == 8 * i + 8 - BitLength(t[i]) && BitLength(t[i]) <= 8
  {
    ThreeParts(t, i);
    ZeroBytes(t[..i]);
    ByteRun(t[i]);
    RunEndsInSecond(BitsOf(t[..i]), BitsOf([t[i]]), BitsOf(t[i+1..]));
  }

  lemma TailZeros(t: seq<Byte>, i: nat, zeros: int)
    requires i < |t| && t[i] != 0 && zeros == 8 - BitLength(t[i]) && forall k | 0 <= k < i :: t[k] == 0
    ensures ZeroRun(BitsOf(t)) == 8 * i + zeros
  {
    TailRun(t, i);
  }

  lemma ThreeParts(t: seq<Byte>, i: nat)
    requires i < |t|
    ensures BitsOf(t) == BitsOf(t[..i]) + (BitsOf([t[i]]) + BitsOf(t[i+1..]))
  {
    SplitAt(t, i);
    BitsOfThree(t[..i], [t[i]], t[i+1..]);
  }

  lemma BitsOfThree(a: seq<Byte>, c: seq<Byte>, d: seq<Byte>)
    ensures BitsOf(a + (c + d)) == BitsOf(a) + (BitsOf(c) + BitsOf(d))
  {
    BitsOfAppend(a, c + d);
    BitsOfAppend(c, d);
  }

  lemma RunEndsInSecond(a: seq<bool>, b: seq<bool>, c: seq<bool>)
    requires ZeroRun(a) == |a| && ZeroRun(b) < |b|
    ensures ZeroRun(a + (b + c)) == |a| + ZeroRun(b)
  {
    ZeroRunAppend(a, b + c);
    ZeroRunAppend(b, c);
  }

  lemma ByteRun(x: Byte)
    ensures BitLength(x) <= 8 && ZeroRun(BitsOf([x])) == 8 - BitLength(x) && (x != 0 ==> BitLength(x) > 0)
  {
    assert [x][..0] == [];
    assert BitsOf([x]) == ToBits(x, 8);
    ByteNum(x);
    LeadingZeros(ToBits(x, 8));
  }

  lemma ByteNum(x: Byte)
    ensures Num(ToBits(x, 8)) == x && Pow2(8) == 256
  {
    assert Pow2(8) == 256;
    NumToBits(x, 8);
  }

  lemma WrapRun(a: nat, b: int, c: nat)
    requires c == a + b
    ensures (a % 256 + b) % 256 == c % 256
  {
    WrapByte(a, b);
  }

  lemma WrapByte(a: nat, b: int)
    ensures (a % 256 + b) % 256 == (a + b) % 256
  {
  }

  // ------------------------------------------------------------ registers

  /** Register values are bytes. */
  type Registers = seq<nat>

  function Rho(hash: Hash, b: nat): nat
    requires ValidBits(b)
  {
    FirstOne(hash, b) % 256
  }

  function Empty(b: nat): Registers { seq(Pow2(b), _ => 0) }

  /** Raises the hash's register to its rho. */
  method Insert(regs: Registers, hash: Hash, b: nat) returns (after: Registers)
    requires ValidBits(b) && |regs| == Pow2(b)
    ensures after == Raised(regs, hash, b)
  {
    BucketIndexIs(hash, b);
    var index := BucketIndex(hash, b);
    var zeros := CountLeadingZeros(hash, b);
    var rho := (zeros + 1) % 256;
    WrapByte(ZeroRun(Stream(hash)[b..]), 1);
    after := regs;
    if rho > regs[index] { after := regs[index := rho]; }
  }

  function Raised(regs: Registers, hash: Hash, b: nat): (after: Registers)
    requires ValidBits(b) && |regs| == Pow2(b)
    ensures |after| == |regs|
  {
    BucketIndexIs(hash, b);
    var k := Bucket(hash, b);
    if Rho(hash, b) > regs[k] then regs[k := Rho(hash, b)] else regs
  }

  /** Element-wise maximum. */
  method Merge(a: Registers, c: Registers) returns (m: Registers)
    requires |a| == |c|
    ensures m == Union(a, c)
  {
    m := a;
    for k := 0 to |a|
      invariant |m| == |a|
      invariant forall i | 0 <= i < k :: m[i] == Max(a[i], c[i])
      invariant forall i | k <= i < |a| :: m[i] == a[i]
    {
      if c[k] > m[k] { m := m[k := c[k]]; }
    }
  }

  function Union(a: Registers, c: Registers): (m: Registers)
    requires |a| == |c|
    ensures |m| == |a| && forall i | 0 <= i < |a| :: m[i] == Max(a[i], c[i])
  {
    seq(|a|, i requires 0 <= i < |a| => Max(a[i], c[i]))
  }

  /** A fresh HyperLogLog fed these hashes. */
  function Fed(hashes: seq<Hash>, b: nat): (regs: Registers)
    requires ValidBits(b)
    ensures |regs| == Pow2(b)
  {
    if hashes == [] then Empty(b) else Raised(Fed(hashes[..|hashes|-1], b), hashes[|hashes|-1], b)
  }

  /** What a register means: the largest rho among the hashes of its bucket. */
  function Highest(hashes: seq<Hash>, b: nat, k: nat): nat
    requires ValidBits(b)
  {
    if hashes == [] then 0
    else
      var front := Highest(hashes[..|hashes|-1], b, k);
      var h := hashes[|hashes|-1];
      if Bucket(h, b) == k then Max(front, Rho(h, b)) else front
  }

  lemma {:induction false} FedIsHighest(hashes: seq<Hash>, b: nat, k: nat)
    requires ValidBits(b) && k < Pow2(b)
    ensures Fed(hashes, b)[k] == Highest(hashes, b, k)
  {
    if hashes != [] { FedIsHighest(hashes[..|hashes|-1], b, k); }
  }

  lemma {:induction false} HighestReached(hashes: seq<Hash>, b: nat, k: nat)
    requires ValidBits(b)
    ensures forall h | h in hashes && Bucket(h, b) == k :: Rho(h, b) <= Highest(hashes, b, k)
    ensures Highest(hashes, b, k) > 0 ==>
              exists h | h in hashes :: Bucket(h, b) == k && Rho(h, b) == Highest(hashes, b, k)
  {
    if hashes != [] {
      HighestReached(hashes[..|hashes|-1], b, k);
      assert hashes == hashes[..|hashes|-1] + [hashes[|hashes|-1]];
      assert hashes[|hashes|-1] in hashes;
    }
  }

  /** Registers depend only on which hashes were seen: not on order, not on repetition. */
  lemma SameHashesSameRegisters(x: seq<Hash>, y: seq<Hash>, b: nat)
    requires ValidBits(b) && forall h :: h in x <==> h in y
    ensures Fed(x, b) == Fed(y, b)
  {
    forall k | 0 <= k < Pow2(b) ensures Fed(x, b)[k] == Fed(y, b)[k] {
      FedIsHighest(x, b, k);
      FedIsHighest(y, b, k);
      HighestReached(x, b, k);
      HighestReached(y, b, k);
    }
  }

  lemma {:induction false} HighestAppend(x: seq<Hash>, y: seq<Hash>, b: nat, k: nat)
    requires ValidBits(b)
    ensures Highest(x + y, b, k) == Max(Highest(x, b, k), Highest(y, b, k))
  {
    if y == [] {
      assert x + y == x;
    } else {
      assert (x + y)[..|x + y|-1] == x + y[..|y|-1];
      HighestAppend(x, y[..|y|-1], b, k);
    }
  }

  /** Merging two HyperLogLogs gives the one that saw both inputs. */
  lemma UnionIsFed(x: seq<Hash>, y: seq<Hash>, b: nat)
    requires ValidBits(b)
    ensures Union(Fed(x, b), Fed(y, b)) == Fed(x + y, b)
  {
    forall k | 0 <= k < Pow2(b) ensures Union(Fed(x, b), Fed(y, b))[k] == Fed(x + y, b)[k] {
      FedIsHighest(x, b, k);
      FedIsHighest(y, b, k);
      FedIsHighest(x + y, b, k);
      HighestAppend(x, y, b, k);
    }
  }
}
