/** What a register of a HyperLogLog holds, told bit by bit of the hashes it was fed. */
module HashBits {
  import opened Common
  import opened Bits
  import opened HyperLogLog

  /** Bit `i` of the hash, counted from the top bit of its first byte; there are zeros behind its end. */
  ghost predicate Bit(hash: Hash, i: nat) {
    BitPlace(i);
    i / 8 < |hash| && hash[i/8] / Pow2(7 - i % 8) % 2 == 1
  }

  lemma BitPlace(i: nat)
    ensures 0 <= i / 8 && 0 <= i % 8 < 8
  {
  }

  lemma {:induction false} ToBitsAt(x: nat, n: nat, i: nat)
    requires i < n
    ensures ToBits(x, n)[i] <==> x / Pow2(n - 1 - i) % 2 == 1
  {
    if i < n - 1 {
      ToBitsAt(x / 2, n - 1, i);
      DivTwice(x, n - 2 - i);
    }
  }

  lemma DivTwice(x: nat, n: nat)
    ensures x / 2 >= 0 && (x / 2) / Pow2(n) == x / Pow2(n + 1)
  {
    var p := Pow2(n);
    DivNonNegative(x / 2, p);
    var q, r := (x / 2) / p, (x / 2) % p;
    assert x == 2 * (p * q + r) + x % 2;
    Doubled(p, q);
    DivModUnique(2 * p, q, 2 * r + x % 2);
  }

  lemma Doubled(p: nat, q: nat)
    ensures 2 * (p * q) == (2 * p) * q
  {
  }

  lemma {:induction false} BitsOfAt(bytes: seq<Byte>, i: nat)
    requires i < 8 * |bytes|
    ensures i / 8 < |bytes| && (BitsOf(bytes)[i] <==> bytes[i/8] / Pow2(7 - i % 8) % 2 == 1)
  {
    var n := |bytes| - 1;
    if i < 8 * n {
      BitsOfAt(bytes[..n], i);
    } else {
      assert i / 8 == n && i % 8 == i - 8 * n;
      ToBitsAt(bytes[n], 8, i - 8 * n);
    }
  }

  /** The stream is the hash, bit by bit, with zeros up to 32 bits. */
  lemma StreamBits(hash: Hash, i: nat)
    ensures |Stream(hash)| == 8 * Max(4, |hash|)
    ensures i < |Stream(hash)| ==> (Stream(hash)[i] <==> Bit(hash, i))
  {
    if i < 32 {
      BitsOfAt(Head(hash, 4), i);
      ZeroOver(Pow2(7 - i % 8));
    } else if i < |Stream(hash)| {
      BitsOfAt(Tail(hash), i - 32);
      assert (i - 32) / 8 == i / 8 - 4 && (i - 32) % 8 == i % 8;
    }
  }

  lemma ZeroOver(p: nat)
    requires p > 0
    ensures 0 / p == 0
  {
    DivModUnique(p, 0, 0);
  }

  lemma {:induction false} ZeroRunEnds(bits: seq<bool>)
    ensures forall i | 0 <= i < ZeroRun(bits) :: !bits[i]
    ensures ZeroRun(bits) < |bits| ==> bits[ZeroRun(bits)]
  {
    if bits != [] && !bits[0] {
      ZeroRunEnds(bits[1..]);
      assert forall i | 0 < i < ZeroRun(bits) :: bits[i] == bits[1..][i-1];
    }
  }

  lemma RunEndsAt(bits: seq<bool>, b: nat, zeros: nat)
    requires b <= |bits| && zeros == ZeroRun(bits[b..])
    ensures b + zeros <= |bits| && (b + zeros < |bits| ==> bits[b + zeros])
    ensures forall i: nat | b <= i < b + zeros :: !bits[i]
  {
    ZeroRunEnds(bits[b..]);
    assert forall i: nat | b <= i < |bits| :: bits[i] == bits[b..][i - b];
  }

  /** Rho is one more than the number of zero bits behind the bucket bits, in a byte. */
  lemma RhoExactly(hash: Hash, b: nat) returns (zeros: nat)
    requires ValidBits(b)
    ensures Rho(hash, b) == (zeros + 1) % 256
    ensures forall i: nat | b <= i < b + zeros :: !Bit(hash, i)
    ensures b + zeros <= 8 * Max(4, |hash|) && (b + zeros < 8 * Max(4, |hash|) ==> Bit(hash, b + zeros))
  {
    zeros := ZeroRun(Stream(hash)[b..]);
    StreamBits(hash, b + zeros);
    RunEndsAt(Stream(hash), b, zeros);
    forall i: nat | b <= i < b + zeros ensures !Bit(hash, i) {
      StreamBits(hash, i);
    }
  }

  lemma LowestBit(bits: seq<bool>)
    requires bits != []
    ensures Num(bits) % 2 == if bits[|bits|-1] then 1 else 0
  {
  }

  /** The bucket number is the first `b` bits. */
  lemma BucketExactly(hash: Hash, b: nat, i: nat)
    requires ValidBits(b) && i < b
    ensures Bucket(hash, b) < Pow2(b) && (Bucket(hash, b) / Pow2(b - 1 - i) % 2 == 1 <==> Bit(hash, i))
  {
    var bits := Stream(hash)[..b];
    NumBound(bits);
    assert bits == bits[..i+1] + bits[i+1..];
    SplitNum(bits[..i+1], bits[i+1..]);
    LowestBit(bits[..i+1]);
    StreamBits(hash, i);
  }

  /** A register is the largest rho of a hash of its bucket, and 0 without one. */
  lemma RegistersExactly(hashes: seq<Hash>, b: nat, k: nat)
    requires ValidBits(b) && k < Pow2(b)
    ensures forall h | h in hashes && Bucket(h, b) == k :: Rho(h, b) <= Fed(hashes, b)[k]
    ensures Fed(hashes, b)[k] > 0 ==> exists h | h in hashes :: Bucket(h, b) == k && Rho(h, b) == Fed(hashes, b)[k]
  {
    FedIsHighest(hashes, b, k);
    HighestReached(hashes, b, k);
  }
}
