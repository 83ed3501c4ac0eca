/** Rounding allocation requests to size-class boundaries. */
module SizeClass {
  import opened Common
  import opened Bits

  function CeilDiv(x: nat, n: nat): (q: nat)
    requires n > 0
  {
    DivNonNegative(x, n);
    if x % n == 0 then x / n else x / n + 1
  }

  function Shift(units: nat): nat { if BitLength(units) > 4 then BitLength(units) - 4 else 0 }

  function Rounded(units: nat): nat { CeilDiv(units, Pow2(Shift(units))) * Pow2(Shift(units)) }

  function SizeClassUnits(units: nat): Option<nat>
    requires units <= U32_MAX
  {
    if Rounded(units) <= U32_MAX then Some(Rounded(units)) else None
  }

  datatype AllocatorError = RequestTooLarge

  /** Units requested from the underlying allocator for a number of bytes; nothing for an empty request. */
  function RequestUnits(sizeBytes: nat, unitSize: nat): Result<Option<nat>, AllocatorError>
    requires unitSize > 0
  {
    if sizeBytes == 0 then Ok(None)
    else
      var units := CeilDiv(sizeBytes, unitSize);
      if units > U32_MAX then Err(RequestTooLarge)
      else
        var c := SizeClassUnits(units);
        if c.None? then Err(RequestTooLarge) else Ok(c)
  }

  // ------------------------------------------------------------ boundaries

  /** Eight classes per power of two; below eight every size is a class. */
  ghost predicate IsClass(x: nat, m: nat, s: nat) { 8 <= m <= 15 && x == m * Pow2(s) }

  ghost predicate Boundary(x: nat) { x < 8 || exists m: nat, s: nat :: IsClass(x, m, s) }

  ghost predicate LeastBoundary(x: nat, units: nat) {
    Boundary(x) && units <= x && forall y: nat | Boundary(y) && units <= y :: x <= y
  }

  lemma CeilBounds(x: nat, n: nat)
    requires n > 0
    ensures x <= CeilDiv(x, n) * n < x + n
  {
    DivNonNegative(x, n);
    var q, r := x / n, x % n;
    assert x == n * q + r;
    assert (q + 1) * n == n * q + n;
  }

  lemma CeilLeast(x: nat, n: nat, k: nat)
    requires n > 0 && x <= k * n
    ensures CeilDiv(x, n) <= k
  {
    CeilBounds(x, n);
    if k < CeilDiv(x, n) { MulGap(n, k, CeilDiv(x, n)); }
  }

  lemma {:induction false} Pow2Add(a: nat, b: nat)
    ensures Pow2(a + b) == Pow2(a) * Pow2(b)
  {
    if a > 0 {
      Pow2Add(a - 1, b);
      Twice(Pow2(a - 1), Pow2(b));
    }
  }

  lemma Twice(p: nat, q: nat)
    ensures 2 * (p * q) == (2 * p) * q
  {
  }

  lemma {:induction false} BitLengthBounds(x: nat)
    requires x > 0
    ensures BitLength(x) > 0 && Pow2(BitLength(x) - 1) <= x < Pow2(BitLength(x))
  {
    if x > 1 { BitLengthBounds(x / 2); }
  }

  /** From 16 units on, a request is between 8 and 16 steps of its class width. */
  lemma Steps(units: nat)
    requires units >= 16
    ensures Shift(units) > 0 && 8 * Pow2(Shift(units)) <= units < 16 * Pow2(Shift(units))
  {
    BitLengthBounds(units);
    var n := BitLength(units);
    if n <= 4 { SmallLength(n); }
    Pow2Add(3, n - 4);
    Pow2Add(4, n - 4);
    assert Pow2(3) == 8 && Pow2(4) == 16;
  }

  lemma SmallLength(n: nat)
    requires n <= 4
    ensures Pow2(n) <= 16
  {
    assert Pow2(4) == 16 && Pow2(3) == 8 && Pow2(2) == 4;
  }

  lemma {:induction false} SmallBits(units: nat, n: nat)
    requires units < Pow2(n)
    ensures BitLength(units) <= n
  {
    if units > 0 { SmallBits(units / 2, n - 1); }
  }

  lemma SmallExact(units: nat)
    requires units < 16
    ensures Shift(units) == 0 && Rounded(units) == units && Boundary(units)
  {
    assert Pow2(4) == 16 && Pow2(0) == 1;
    SmallBits(units, 4);
    if units >= 8 { assert IsClass(units, units, 0); }
  }

  lemma {:induction false} Pow2Doubles(s: nat, shift: nat)
    requires s < shift
    ensures 2 * Pow2(s) <= Pow2(shift)
  {
    if s < shift - 1 { Pow2Doubles(s, shift - 1); }
  }

  lemma NarrowClassSmall(m: nat, s: nat, shift: nat)
    requires m <= 15 && s < shift
    ensures m * Pow2(s) < 8 * Pow2(shift)
  {
    Pow2Doubles(s, shift);
    MulOrder(Pow2(s), m, 15);
  }

  lemma Reorder(m: nat, a: nat, b: nat)
    ensures m * (a * b) == (m * b) * a
  {
  }

  /** Any boundary from `8 * 2^shift` on is a whole number of class widths. */
  lemma BoundaryMultiple(y: nat, shift: nat) returns (k: nat)
    requires Boundary(y) && 8 * Pow2(shift) <= y
    ensures y == k * Pow2(shift)
  {
    var m: nat, s: nat :| IsClass(y, m, s);
    if s < shift { NarrowClassSmall(m, s, shift); }
    Pow2Add(shift, s - shift);
    k := m * Pow2(s - shift);
    Reorder(m, Pow2(shift), Pow2(s - shift));
  }

  /** The rounded size is the least boundary that is large enough. */
  lemma RoundedLeast(units: nat)
    ensures LeastBoundary(Rounded(units), units)
  {
    if units < 16 {
      SmallExact(units);
    } else {
      Steps(units);
      var w := Pow2(Shift(units));
      var q := CeilDiv(units, w);
      CeilBounds(units, w);
      CeilLeast(units, w, 16);
      if q < 8 { MulGap(w, q, 8); }
      if q <= 15 {
        assert IsClass(q * w, q, Shift(units));
      } else {
        assert IsClass(q * w, 8, Shift(units) + 1);
      }
      forall y: nat | Boundary(y) && units <= y ensures Rounded(units) <= y {
        var k := BoundaryMultiple(y, Shift(units));
        CeilLeast(units, w, k);
        MulOrder(w, q, k);
      }
    }
  }

  /** Refuses exactly the requests whose boundary does not fit 32 bits. */
  lemma RefusedExactly(units: nat, x: nat)
    requires units <= U32_MAX && LeastBoundary(x, units)
    ensures SizeClassUnits(units) == if x <= U32_MAX then Some(x) else None
  {
    RoundedLeast(units);
  }

  /** Equal-size requests recycle each other's holes: a boundary is its own class. */
  lemma Idempotent(units: nat)
    ensures Rounded(Rounded(units)) == Rounded(units)
  {
    RoundedLeast(units);
    RoundedLeast(Rounded(units));
  }

  lemma Monotone(a: nat, b: nat)
    requires a <= b
    ensures Rounded(a) <= Rounded(b)
  {
    RoundedLeast(a);
    RoundedLeast(b);
  }

  /** Rounding wastes less than an eighth of the request. */
  lemma WasteBound(units: nat)
    requires units > 0
    ensures 8 * (Rounded(units) - units) < units
  {
    if units < 16 {
      SmallExact(units);
    } else {
      Steps(units);
      CeilBounds(units, Pow2(Shift(units)));
    }
  }

  /** What is requested covers the bytes asked for. */
  lemma RequestCovers(sizeBytes: nat, unitSize: nat)
    requires unitSize > 0 && RequestUnits(sizeBytes, unitSize).Ok?
    ensures RequestUnits(sizeBytes, unitSize).value.None? <==> sizeBytes == 0
    ensures sizeBytes > 0 ==> sizeBytes <= RequestUnits(sizeBytes, unitSize).value.value * unitSize
  {
    if sizeBytes > 0 {
      var units := CeilDiv(sizeBytes, unitSize);
      CeilBounds(sizeBytes, unitSize);
      RoundedLeast(units);
      MulOrder(unitSize, units, Rounded(units));
    }
  }

  /** A boundary whose units hold the bytes. */
  ghost predicate HoldsBytes(x: nat, unitSize: nat, sizeBytes: nat) { Boundary(x) && sizeBytes <= x * unitSize }

  lemma HoldsUnits(x: nat, unitSize: nat, sizeBytes: nat)
    requires unitSize > 0
    ensures sizeBytes <= x * unitSize <==> CeilDiv(sizeBytes, unitSize) <= x
  {
    CeilBounds(sizeBytes, unitSize);
    if sizeBytes <= x * unitSize { CeilLeast(sizeBytes, unitSize, x); }
    if CeilDiv(sizeBytes, unitSize) <= x { MulOrder(unitSize, CeilDiv(sizeBytes, unitSize), x); }
  }

  /** A request takes the least boundary that holds its bytes, and is refused exactly when that does not fit 32 bits. */
  lemma RequestExactly(sizeBytes: nat, unitSize: nat, x: nat)
    requires unitSize > 0 && sizeBytes > 0 && HoldsBytes(x, unitSize, sizeBytes)
    requires forall y: nat | HoldsBytes(y, unitSize, sizeBytes) :: x <= y
    ensures RequestUnits(sizeBytes, unitSize) == if x <= U32_MAX then Ok(Some(x)) else Err(RequestTooLarge)
  {
    var units := CeilDiv(sizeBytes, unitSize);
    HoldsUnits(x, unitSize, sizeBytes);
    forall y: nat | Boundary(y) && units <= y ensures x <= y {
      HoldsUnits(y, unitSize, sizeBytes);
      assert HoldsBytes(y, unitSize, sizeBytes);
    }
    assert LeastBoundary(x, units);
    RoundedLeast(units);
  }
}
