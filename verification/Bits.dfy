/** Binary numbers: powers of two, bit sequences and leading zeros. */
module Bits {
  import opened Common
  import opened Seqs

  function Pow2(n: nat): (p: nat)
    ensures p > 0
  {
    if n == 0 then 1 else 2 * Pow2(n - 1)
  }

  /** Big-endian value of a bit sequence. */
  function Num(bits: seq<bool>): nat {
    if bits == [] then 0 else 2 * Num(bits[..|bits|-1]) + if bits[|bits|-1] then 1 else 0
  }

  function ToBits(x: nat, n: nat): (bits: seq<bool>)
    ensures |bits| == n
  {
    if n == 0 then [] else ToBits(x / 2, n - 1) + [x % 2 == 1]
  }

  function BitLength(x: nat): nat { if x == 0 then 0 else 1 + BitLength(x / 2) }

  /** Zero bits before the first one. */
  function ZeroRun(bits: seq<bool>): (n: nat)
    ensures n <= |bits|
  {
    if bits == [] || bits[0] then 0 else 1 + ZeroRun(bits[1..])
  }

  lemma {:induction false} NumToBits(x: nat, n: nat)
    requires x < Pow2(n)
    ensures Num(ToBits(x, n)) == x
  {
    if n > 0 {
      NumToBits(x / 2, n - 1);
      var bits := ToBits(x, n);
      assert bits[..|bits|-1] == ToBits(x / 2, n - 1);
    }
  }

  lemma {:induction false} NumBound(bits: seq<bool>)
    ensures Num(bits) < Pow2(|bits|)
  {
    if bits != [] { NumBound(bits[..|bits|-1]); }
  }

  lemma {:induction false} NumAppend(hi: seq<bool>, lo: seq<bool>)
    ensures Num(hi + lo) == Num(hi) * Pow2(|lo|) + Num(lo)
  {
    if lo == [] {
      assert hi + lo == hi;
    } else {
      var front := lo[..|lo|-1];
      FrontOfAppend(hi, lo);
      NumAppend(hi, front);
      Distribute(Num(hi), Pow2(|front|), Num(front));
    }
  }

  lemma Distribute(a: nat, b: nat, c: nat)
    ensures 2 * (a * b + c) == a * (2 * b) + 2 * c
  {
  }

  /** Dividing by a power of two keeps the leading bits, the remainder is the trailing bits. */
  lemma SplitNum(hi: seq<bool>, lo: seq<bool>)
    ensures Num(hi + lo) / Pow2(|lo|) == Num(hi) && Num(hi + lo) % Pow2(|lo|) == Num(lo)
  {
    NumAppend(hi, lo);
    NumBound(lo);
    DivModOf(Num(hi + lo), Pow2(|lo|), Num(hi), Num(lo));
  }

  lemma {:induction false} BitLengthExact(x: nat, n: nat)
    requires n > 0 && Pow2(n - 1) <= x < Pow2(n)
    ensures BitLength(x) == n
  {
    if n > 1 { BitLengthExact(x / 2, n - 1); }
  }

  lemma LeadingBit(bits: seq<bool>)
    requires bits != []
    ensures Num(bits) == (if bits[0] then Pow2(|bits| - 1) else 0) + Num(bits[1..])
  {
    assert bits == [bits[0]] + bits[1..];
    NumAppend([bits[0]], bits[1..]);
    SingleBit(bits[0]);
    OneTimes(Pow2(|bits| - 1));
  }

  lemma SingleBit(b: bool)
    ensures Num([b]) == if b then 1 else 0
  {
    assert [b][..0] == [];
  }

  lemma OneTimes(p: nat)
    ensures 1 * p == p && 0 * p == 0
  {
  }

  /** Leading zeros of a number are the leading zero bits of its sequence. */
  lemma {:induction false} LeadingZeros(bits: seq<bool>)
    ensures BitLength(Num(bits)) + ZeroRun(bits) == |bits|
  {
    if bits != [] {
      LeadingBit(bits);
      NumBound(bits[1..]);
      if bits[0] { BitLengthExact(Num(bits), |bits|); } else { LeadingZeros(bits[1..]); }
    }
  }

  lemma {:induction false} ZeroRunAppend(a: seq<bool>, b: seq<bool>)
    ensures ZeroRun(a + b) == if ZeroRun(a) == |a| then |a| + ZeroRun(b) else ZeroRun(a)
  {
    if a == [] {
      assert a + b == b;
    } else {
      assert (a + b)[1..] == a[1..] + b;
      ZeroRunAppend(a[1..], b);
    }
  }

  function ShiftRight(x: nat, n: nat): (r: nat) {
    assert x / Pow2(n) >= 0 by { DivNonNegative(x, Pow2(n)); }
    x / Pow2(n)
  }
}
