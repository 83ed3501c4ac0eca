/** Types shared by every component: bytes, block keys, optional values and error results. */
module Common {

  type Byte = b: int | 0 <= b < 256

  type Hash = seq<Byte>

  /** A block is named by its model namespace and its content hash. */
  datatype BlockKey = BlockKey(ns: string, hash: Hash)

  datatype Option<+T> = None | Some(value: T)

  datatype Result<+T, +E> = Ok(value: T) | Err(error: E)

  const U32_MAX: nat := 0xFFFF_FFFF
  const U64_MAX: nat := 0xFFFF_FFFF_FFFF_FFFF

  type U64 = x: int | 0 <= x <= U64_MAX

  function Max(a: int, b: int): int { if a >= b then a else b }

  function Min(a: int, b: int): int { if a <= b then a else b }

  /** Subtraction of two instants: an instant in the future has age zero. */
  function Age(now: nat, then': nat): nat { if now <= then' then 0 else now - then' }

  // ------------------------------------------------------------ order on names

  /** Strings compare character by character, a proper prefix first. */
  predicate NameLess(a: string, b: string) {
    b != [] && (a == [] || a[0] < b[0] || (a[0] == b[0] && NameLess(a[1..], b[1..])))
  }

  /** The names agree before position `k`, where the first one ends or has the smaller character. */
  ghost predicate SmallerAt(a: string, b: string, k: nat) {
    k <= |a| && k < |b| && a[..k] == b[..k] && (k == |a| || a[k] < b[k])
  }

  /** Names are ordered like words in a dictionary. */
  lemma {:induction false} NameLessExactly(a: string, b: string)
    ensures NameLess(a, b) <==> exists k: nat :: SmallerAt(a, b, k)
  {
    if b != [] && (a == [] || a[0] < b[0]) {
      assert SmallerAt(a, b, 0);
    } else if b != [] && a[0] == b[0] {
      NameLessExactly(a[1..], b[1..]);
      if k: nat :| SmallerAt(a[1..], b[1..], k) {
        assert a[..k+1] == [a[0]] + a[1..][..k] && b[..k+1] == [b[0]] + b[1..][..k];
        assert SmallerAt(a, b, k + 1);
      }
      if k: nat :| SmallerAt(a, b, k) {
        assert k > 0 && a[1..][..k-1] == a[..k][1..] && b[1..][..k-1] == b[..k][1..];
        assert SmallerAt(a[1..], b[1..], k - 1);
      }
    }
  }

  lemma {:induction false} NameTotal(a: string, b: string)
    ensures NameLess(a, b) || a == b || NameLess(b, a)
  {
    if a != [] && b != [] && a[0] == b[0] {
      NameTotal(a[1..], b[1..]);
      if a[1..] == b[1..] { assert a == [a[0]] + a[1..] && b == [b[0]] + b[1..]; }
    }
  }

  lemma {:induction false} NameAsymmetric(a: string, b: string)
    requires NameLess(a, b)
    ensures a != b && !NameLess(b, a)
  {
    if a != [] && a[0] == b[0] { NameAsymmetric(a[1..], b[1..]); }
  }

  lemma {:induction false} NameTransitive(a: string, b: string, c: string)
    requires NameLess(a, b) && NameLess(b, c)
    ensures NameLess(a, c)
  {
    if a != [] && a[0] == b[0] == c[0] { NameTransitive(a[1..], b[1..], c[1..]); }
  }

  // ------------------------------------------------------------ division

  lemma {:induction false} MulGap(n: nat, a: nat, b: nat)
    requires a < b
    ensures n * a + n <= n * b
  {
    assert n * (b - 1) + n == n * b;
    if a < b - 1 { MulGap(n, a, b - 1); }
  }

  /** Quotient and remainder are unique. */
  lemma DivModUnique(n: nat, q: nat, r: nat)
    requires r < n
    ensures (n * q + r) / n == q && (n * q + r) % n == r
  {
    var x := n * q + r;
    var d := x / n;
    assert x == n * d + x % n;
    if d < q { MulGap(n, d, q); } else if q < d { MulGap(n, q, d); }
  }

  lemma DivModOf(x: nat, n: nat, q: nat, r: nat)
    requires r < n && x == q * n + r
    ensures x / n == q && x % n == r
  {
    DivModUnique(n, q, r);
  }

  /** Numbering a grid row by row gives every cell its own number. */
  lemma CellUnique(width: nat, a: nat, i: nat, b: nat, j: nat)
    requires i < width && j < width && a * width + i == b * width + j
    ensures a == b && i == j
  {
    if a < b { MulGap(width, a, b); } else if b < a { MulGap(width, b, a); }
  }

  lemma CellInGrid(width: nat, rows: nat, a: nat, i: nat)
    requires i < width && a < rows
    ensures a * width + i < rows * width
  {
    MulGap(width, a, rows);
  }

  lemma CellOfNumber(width: nat, rows: nat, cell: nat)
    requires cell < rows * width
    ensures width > 0 && cell / width < rows && cell == (cell / width) * width + cell % width
  {
    var row := cell / width;
    if rows <= row { MulOrder(width, rows, row); }
  }

  lemma MulOrder(n: nat, a: nat, b: nat)
    requires a <= b
    ensures a * n <= b * n
  {
    if a < b { MulGap(n, a, b); }
  }

  /** Moving one element from what is left to what is done. */
  lemma TakeOne<T>(all: set<T>, left: set<T>, x: T)
    requires left <= all && x in left
    ensures all - (left - {x}) == (all - left) + {x}
  {
  }

  lemma DivNonNegative(x: nat, p: nat)
    requires p > 0
    ensures x / p >= 0
  {
    var d := x / p;
    assert x == p * d + x % p;
    if d < 0 { MulNegative(p, d + 1); }
  }

  lemma MulNegative(p: nat, d: int)
    requires d <= 0
    ensures p * d <= 0
  {
  }
}
