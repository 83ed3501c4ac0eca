/**
 TinyLFU frequency estimation: a count-min sketch with saturating counters that are halved when the window is full.
 */
module FrequencySketch {
  import opened Common
  import opened Seqs
  import opened Bits

  const MAX_COUNT: nat := 255

  // ------------------------------------------------------------ the reference: one exact counter per key

  predicate WindowFull(window: nat, limit: nat) { window == limit || window > 2 * limit }

  function Window(accesses: seq<BlockKey>, limit: nat): nat {
    if accesses == [] then 0
    else
      var w := Window(accesses[..|accesses|-1], limit);
      if WindowFull(w, limit) then 0 else w + 1
  }

  function Bump(c: nat): nat { Min(MAX_COUNT, c + 1) }

  /** How often `key` was accessed, with the same saturation and the same halving. */
  function Exact(key: BlockKey, accesses: seq<BlockKey>, limit: nat): (c: nat)
    ensures c <= MAX_COUNT
  {
    if accesses == [] then 0
    else
      var front := accesses[..|accesses|-1];
      var c := Exact(key, front, limit);
      var aged := if WindowFull(Window(front, limit), limit) then c / 2 else c;
      if accesses[|accesses|-1] == key then Bump(aged) else aged
  }

  /** The window counts accesses and starts over with every `limit + 1`-st. */
  lemma {:induction false} WindowExactly(accesses: seq<BlockKey>, limit: nat)
    ensures Window(accesses, limit) == |accesses| % (limit + 1)
  {
    if accesses != [] {
      var n := |accesses| - 1;
      WindowExactly(accesses[..n], limit);
      NextInWindow(n, limit + 1);
    }
  }

  lemma NextInWindow(n: nat, p: nat)
    requires p > 0
    ensures (n + 1) % p == if n % p == p - 1 then 0 else n % p + 1
    ensures (n + 1) / p == if n % p == p - 1 then n / p + 1 else n / p
  {
    DivNonNegative(n, p);
    CountOn(n, p, n / p, n % p);
  }

  lemma CountOn(n: nat, p: nat, q: nat, r: nat)
    requires r < p && n == p * q + r
    ensures (n + 1) % p == if r == p - 1 then 0 else r + 1
    ensures (n + 1) / p == if r == p - 1 then q + 1 else q
  {
    if r == p - 1 { DivModUnique(p, q + 1, 0); } else { DivModUnique(p, q, r + 1); }
  }

  /** One access: counters are halved before every `limit + 1`-st access, and the key's own is raised by one. */
  lemma ExactAfter(key: BlockKey, accesses: seq<BlockKey>, next: BlockKey, limit: nat)
    ensures var c := Exact(key, accesses, limit);
            var aged := if |accesses| % (limit + 1) == limit then c / 2 else c;
            Exact(key, accesses + [next], limit) == Min(255, aged + if next == key then 1 else 0)
  {
    ExactNext(key, accesses, next, limit);
    WindowExactly(accesses, limit);
  }

  /** From count `c` and window `w` on, `more` accesses are counted one by one. */
  ghost predicate Counted(key: BlockKey, all: seq<BlockKey>, limit: nat, c: nat, w: nat, more: seq<BlockKey>) {
    Window(all, limit) == w + |more| && Exact(key, all, limit) == Min(255, c + multiset(more)[key])
  }

  lemma {:induction false} CountsWithin(key: BlockKey, accesses: seq<BlockKey>, more: seq<BlockKey>, limit: nat,
                                        c: nat, w: nat)
    requires Counted(key, accesses, limit, c, w, []) && w + |more| <= limit
    ensures Counted(key, accesses + more, limit, c, w, more)
  {
    if more == [] {
      assert accesses + more == accesses;
    } else {
      var front, last := more[..|more|-1], more[|more|-1];
      CountsWithin(key, accesses, front, limit, c, w);
      FrontLast(more);
      Associative(accesses, front, [last]);
      CountsNext(key, accesses + front, limit, c, w, front, last);
    }
  }

  lemma CountsNext(key: BlockKey, all: seq<BlockKey>, limit: nat, c: nat, w: nat, more: seq<BlockKey>, next: BlockKey)
    requires Counted(key, all, limit, c, w, more) && w + |more| < limit
    ensures Counted(key, all + [next], limit, c, w, more + [next])
  {
    CountsOne(key, all, next, limit);
  }

  lemma CountsOne(key: BlockKey, accesses: seq<BlockKey>, next: BlockKey, limit: nat)
    requires Window(accesses, limit) < limit
    ensures Window(accesses + [next], limit) == Window(accesses, limit) + 1
    ensures Exact(key, accesses + [next], limit) ==
            Min(255, Exact(key, accesses, limit) + if next == key then 1 else 0)
  {
    ExactNext(key, accesses, next, limit);
    assert (accesses + [next])[..|accesses|] == accesses;
  }

  /** Accesses that stay within one window are counted one by one, up to the largest byte. */
  lemma ExactWithin(key: BlockKey, accesses: seq<BlockKey>, more: seq<BlockKey>, limit: nat)
    requires |accesses| % (limit + 1) + |more| <= limit
    ensures Exact(key, accesses + more, limit) == Min(255, Exact(key, accesses, limit) + multiset(more)[key])
  {
    WindowExactly(accesses, limit);
    CountsWithin(key, accesses, more, limit, Exact(key, accesses, limit), Window(accesses, limit));
  }

  /** Until the first window is full, the count is the number of accesses. */
  lemma ExactIsCount(key: BlockKey, accesses: seq<BlockKey>, limit: nat)
    requires |accesses| <= limit
    ensures Exact(key, accesses, limit) == Min(255, multiset(accesses)[key])
  {
    CountsWithin(key, [], accesses, limit, 0, 0);
    NothingBefore(accesses);
  }

  lemma NothingBefore(accesses: seq<BlockKey>)
    ensures [] + accesses == accesses
  {
  }

  /** While its key is not accessed, a count is halved exactly once per window that fills up. */
  lemma {:induction false} ExactFades(key: BlockKey, accesses: seq<BlockKey>, more: seq<BlockKey>, limit: nat)
    requires key !in more
    ensures Faded(Exact(key, accesses, limit), Exact(key, accesses + more, limit),
                  WindowsFilled(|accesses|, limit), WindowsFilled(|accesses| + |more|, limit))
  {
    if more == [] {
      assert accesses + more == accesses;
    } else {
      var front, last := more[..|more|-1], more[|more|-1];
      ExactFades(key, accesses, front, limit);
      assert accesses + more == (accesses + front) + [last] && last in more;
      FadesOn(key, accesses + front, last, limit, Exact(key, accesses, limit), WindowsFilled(|accesses|, limit));
    }
  }

  ghost function WindowsFilled(n: nat, limit: nat): int { n / (limit + 1) }

  /** `d` is `c` after as many halvings as windows were filled. */
  ghost predicate Faded(c: nat, d: nat, before: int, after: int) { before <= after && d == c / Pow2(after - before) }

  lemma FadesOn(key: BlockKey, accesses: seq<BlockKey>, last: BlockKey, limit: nat, c: nat, before: int)
    requires last != key && Faded(c, Exact(key, accesses, limit), before, WindowsFilled(|accesses|, limit))
    ensures Faded(c, Exact(key, accesses + [last], limit), before, WindowsFilled(|accesses| + 1, limit))
  {
    ExactAfter(key, accesses, last, limit);
    NextInWindow(|accesses|, limit + 1);
    HalveAgain(c, WindowsFilled(|accesses|, limit) - before);
  }

  lemma HalveAgain(c: nat, n: nat)
    ensures c / Pow2(n) / 2 == c / Pow2(n + 1)
  {
    var p := Pow2(n);
    DivNonNegative(c, p);
    var q, r := c / p, c % p;
    assert c == p * q + r && q == 2 * (q / 2) + q % 2;
    Regroup(p, q);
    DivModUnique(2 * p, q / 2, p * (q % 2) + r);
  }

  lemma Regroup(p: nat, q: nat)
    ensures p * q == (2 * p) * (q / 2) + p * (q % 2) && p * (q % 2) <= p
  {
    assert q == 2 * (q / 2) + q % 2;
  }

  // ------------------------------------------------------------ one row

  function Halved(row: seq<nat>): (r: seq<nat>)
    ensures |r| == |row| && forall i | 0 <= i < |row| :: r[i] == row[i] / 2
  {
    seq(|row|, i requires 0 <= i < |row| => row[i] / 2)
  }

  /** A row before and after one access of the key in cell `cell`. */
  function NextRow(row: seq<nat>, cell: nat, full: bool): (r: seq<nat>)
    requires cell < |row|
    ensures |r| == |row|
  {
    var base := if full then Halved(row) else row;
    base[cell := Bump(base[cell])]
  }

  function Cell(hash: (nat, BlockKey) -> nat, width: nat, r: nat, key: BlockKey): (c: nat)
    requires width > 0
    ensures c < width
  {
    hash(r, key) % width
  }

  /** Every cell is at least the exact counter of every key that falls into it. */
  ghost predicate Covers(hash: (nat, BlockKey) -> nat, row: seq<nat>, r: nat, accesses: seq<BlockKey>, limit: nat)
    requires |row| > 0
  {
    forall k :: Exact(k, accesses, limit) <= row[Cell(hash, |row|, r, k)] <= MAX_COUNT
  }

  /** No other accessed key shares the cell of `key` in row `r`. */
  ghost predicate Alone(hash: (nat, BlockKey) -> nat, width: nat, r: nat, key: BlockKey, accesses: seq<BlockKey>)
    requires width > 0
  {
    forall k | k in accesses && k != key :: hash(r, k) % width != hash(r, key) % width
  }

  /** A cell that only one key uses is that key's exact counter. */
  ghost predicate Sharp(hash: (nat, BlockKey) -> nat, row: seq<nat>, r: nat, accesses: seq<BlockKey>, limit: nat)
    requires |row| > 0
  {
    forall k | Alone(hash, |row|, r, k, accesses) :: row[Cell(hash, |row|, r, k)] == Exact(k, accesses, limit)
  }

  lemma ExactNext(key: BlockKey, accesses: seq<BlockKey>, next: BlockKey, limit: nat)
    ensures var c := Exact(key, accesses, limit);
            var aged := if WindowFull(Window(accesses, limit), limit) then c / 2 else c;
            Exact(key, accesses + [next], limit) == if next == key then Bump(aged) else aged
  {
    assert (accesses + [next])[..|accesses|] == accesses;
  }

  lemma CellNext(row: seq<nat>, cell: nat, full: bool, c: nat)
    requires cell < |row| && c < |row|
    ensures var aged := if full then row[c] / 2 else row[c];
            NextRow(row, cell, full)[c] == if c == cell then Bump(aged) else aged
  {
  }

  /** A key's exact counter stays below its cell. */
  lemma KeyCovered(hash: (nat, BlockKey) -> nat, row: seq<nat>, r: nat, accesses: seq<BlockKey>, limit: nat,
                   next: BlockKey, k: BlockKey)
    requires |row| > 0 && Exact(k, accesses, limit) <= row[Cell(hash, |row|, r, k)] <= MAX_COUNT
    ensures var after := NextRow(row, Cell(hash, |row|, r, next), WindowFull(Window(accesses, limit), limit));
            Exact(k, accesses + [next], limit) <= after[Cell(hash, |row|, r, k)] <= MAX_COUNT
  {
    ExactNext(k, accesses, next, limit);
    CellNext(row, Cell(hash, |row|, r, next), WindowFull(Window(accesses, limit), limit), Cell(hash, |row|, r, k));
  }

  lemma RowCovers(hash: (nat, BlockKey) -> nat, row: seq<nat>, r: nat, accesses: seq<BlockKey>, limit: nat,
                  next: BlockKey)
    requires |row| > 0 && Covers(hash, row, r, accesses, limit)
    ensures Covers(hash, NextRow(row, Cell(hash, |row|, r, next), WindowFull(Window(accesses, limit), limit)), r,
                   accesses + [next], limit)
  {
    var full := WindowFull(Window(accesses, limit), limit);
    var after := NextRow(row, Cell(hash, |row|, r, next), full);
    forall k ensures Exact(k, accesses + [next], limit) <= after[Cell(hash, |row|, r, k)] <= MAX_COUNT {
      KeyCovered(hash, row, r, accesses, limit, next, k);
    }
  }

  lemma RowSharp(hash: (nat, BlockKey) -> nat, row: seq<nat>, r: nat, accesses: seq<BlockKey>, limit: nat,
                 next: BlockKey)
    requires |row| > 0 && Sharp(hash, row, r, accesses, limit)
    ensures Sharp(hash, NextRow(row, Cell(hash, |row|, r, next), WindowFull(Window(accesses, limit), limit)), r,
                  accesses + [next], limit)
  {
    var full := WindowFull(Window(accesses, limit), limit);
    var after := NextRow(row, Cell(hash, |row|, r, next), full);
    forall k | Alone(hash, |row|, r, k, accesses + [next])
      ensures after[Cell(hash, |row|, r, k)] == Exact(k, accesses + [next], limit)
    {
      ExactNext(k, accesses, next, limit);
      assert next in accesses + [next];
      assert forall j | j in accesses :: j in accesses + [next];
      assert Alone(hash, |row|, r, k, accesses);
      assert row[Cell(hash, |row|, r, k)] == Exact(k, accesses, limit);
    }
  }

  ghost predicate RowOk(hash: (nat, BlockKey) -> nat, row: seq<nat>, r: nat, accesses: seq<BlockKey>, limit: nat) {
    |row| > 0 && Covers(hash, row, r, accesses, limit) && Sharp(hash, row, r, accesses, limit)
  }

  ghost predicate RowsOk(hash: (nat, BlockKey) -> nat, rows: seq<seq<nat>>, accesses: seq<BlockKey>, limit: nat) {
    forall r | 0 <= r < |rows| :: RowOk(hash, rows[r], r, accesses, limit)
  }

  predicate Filled(rows: seq<seq<nat>>) { forall r | 0 <= r < |rows| :: |rows[r]| > 0 }

  function CellValue(hash: (nat, BlockKey) -> nat, rows: seq<seq<nat>>, r: nat, key: BlockKey): nat
    requires r < |rows| && |rows[r]| > 0
  {
    rows[r][Cell(hash, |rows[r]|, r, key)]
  }

  /** The least of the first `n` rows, at most the largest byte. */
  function Least(hash: (nat, BlockKey) -> nat, rows: seq<seq<nat>>, key: BlockKey, n: nat): nat
    requires n <= |rows| && Filled(rows)
  {
    if n == 0 then MAX_COUNT else Min(Least(hash, rows, key, n - 1), CellValue(hash, rows, n - 1, key))
  }

  lemma {:induction false} LeastCovers(hash: (nat, BlockKey) -> nat, rows: seq<seq<nat>>, key: BlockKey, n: nat,
                                       accesses: seq<BlockKey>, limit: nat)
    requires n <= |rows| && Filled(rows)
    requires forall r | 0 <= r < n :: Exact(key, accesses, limit) <= CellValue(hash, rows, r, key) <= MAX_COUNT
    ensures Exact(key, accesses, limit) <= Least(hash, rows, key, n) <= MAX_COUNT
  {
    if n > 0 { LeastCovers(hash, rows, key, n - 1, accesses, limit); }
  }

  lemma RowValue(hash: (nat, BlockKey) -> nat, rows: seq<seq<nat>>, key: BlockKey, r: nat, accesses: seq<BlockKey>,
                 limit: nat)
    requires r < |rows| && RowsOk(hash, rows, accesses, limit)
    ensures |rows[r]| > 0 && Exact(key, accesses, limit) <= CellValue(hash, rows, r, key) <= MAX_COUNT
    ensures Alone(hash, |rows[r]|, r, key, accesses) ==> CellValue(hash, rows, r, key) == Exact(key, accesses, limit)
  {
    assert RowOk(hash, rows[r], r, accesses, limit);
  }

  lemma {:induction false} LeastBelow(hash: (nat, BlockKey) -> nat, rows: seq<seq<nat>>, key: BlockKey, n: nat, r: nat)
    requires r < n <= |rows| && Filled(rows)
    ensures Least(hash, rows, key, n) <= CellValue(hash, rows, r, key)
  {
    if r < n - 1 { LeastBelow(hash, rows, key, n - 1, r); }
  }

  ghost predicate SomeRowAlone(hash: (nat, BlockKey) -> nat, rows: seq<seq<nat>>, key: BlockKey,
                               accesses: seq<BlockKey>) {
    exists r | 0 <= r < |rows| :: |rows[r]| > 0 && Alone(hash, |rows[r]|, r, key, accesses)
  }

  /** Never below the exact count, and exact when some row has no collision. */
  lemma EstimateSound(hash: (nat, BlockKey) -> nat, rows: seq<seq<nat>>, key: BlockKey, accesses: seq<BlockKey>,
                      limit: nat)
    requires RowsOk(hash, rows, accesses, limit)
    ensures Filled(rows) && Exact(key, accesses, limit) <= Least(hash, rows, key, |rows|) <= MAX_COUNT
    ensures SomeRowAlone(hash, rows, key, accesses) ==> Least(hash, rows, key, |rows|) == Exact(key, accesses, limit)
  {
    forall r | 0 <= r < |rows|
      ensures |rows[r]| > 0 && Exact(key, accesses, limit) <= CellValue(hash, rows, r, key) <= MAX_COUNT
    {
      RowValue(hash, rows, key, r, accesses, limit);
    }
    LeastCovers(hash, rows, key, |rows|, accesses, limit);
    if SomeRowAlone(hash, rows, key, accesses) {
      var r :| 0 <= r < |rows| && |rows[r]| > 0 && Alone(hash, |rows[r]|, r, key, accesses);
      RowValue(hash, rows, key, r, accesses, limit);
      LeastBelow(hash, rows, key, |rows|, r);
    }
  }

  ghost predicate IsNext(hash: (nat, BlockKey) -> nat, rows: seq<seq<nat>>, next: seq<seq<nat>>, key: BlockKey,
                         full: bool) {
    |next| <= |rows| && forall i | 0 <= i < |next| ::
      |rows[i]| > 0 && next[i] == NextRow(rows[i], Cell(hash, |rows[i]|, i, key), full)
  }

  /** One access keeps every row sound, whatever the hash functions are. */
  lemma RowsNext(hash: (nat, BlockKey) -> nat, rows: seq<seq<nat>>, next: seq<seq<nat>>, accesses: seq<BlockKey>,
                 limit: nat, key: BlockKey)
    requires RowsOk(hash, rows, accesses, limit) && |next| == |rows|
    requires IsNext(hash, rows, next, key, WindowFull(Window(accesses, limit), limit))
    ensures RowsOk(hash, next, accesses + [key], limit)
  {
    forall r | 0 <= r < |next| ensures RowOk(hash, next[r], r, accesses + [key], limit) {
      assert RowOk(hash, rows[r], r, accesses, limit);
      RowCovers(hash, rows[r], r, accesses, limit, key);
      RowSharp(hash, rows[r], r, accesses, limit, key);
    }
  }

  lemma {:induction false} LeastFront(hash: (nat, BlockKey) -> nat, rows: seq<seq<nat>>, row: seq<nat>, key: BlockKey,
                                      n: nat)
    requires n <= |rows| && |row| > 0 && Filled(rows)
    ensures Filled(rows + [row]) && Least(hash, rows + [row], key, n) == Least(hash, rows, key, n)
  {
    if n > 0 { LeastFront(hash, rows, row, key, n - 1); }
  }

  /** `f` is at least the number of accesses, up to the largest byte, and no more without a collision. */
  ghost predicate Estimates(f: nat, count: nat, alone: bool) {
    Min(255, count) <= f <= 255 && (alone ==> f == Min(255, count))
  }

  class TinyLfu {
    const hash: (nat, BlockKey) -> nat
    const limit: nat
    var rows: seq<seq<nat>>
    var window: nat
    ghost var accesses: seq<BlockKey>

    ghost predicate Valid()
      reads this
    {
      window == Window(accesses, limit) && RowsOk(hash, rows, accesses, limit)
    }

    /** The hash functions are arbitrary. */
    constructor (hash: (nat, BlockKey) -> nat, depth: nat, width: nat, limit: nat)
      requires width > 0
      ensures Valid() && accesses == [] && this.hash == hash && this.limit == limit && |rows| == depth
    {
      this.hash, this.limit, window, accesses := hash, limit, 0, [];
      rows := seq(depth, _ => seq(width, _ => 0));
    }

    method Get(key: BlockKey) returns (f: nat)
      requires Valid()
      ensures Exact(key, accesses, limit) <= f <= MAX_COUNT
      ensures SomeRowAlone(hash, rows, key, accesses) ==> f == Exact(key, accesses, limit)
      ensures |accesses| <= limit ==> Estimates(f, multiset(accesses)[key], SomeRowAlone(hash, rows, key, accesses))
    {
      EstimateSound(hash, rows, key, accesses, limit);
      if |accesses| <= limit { ExactIsCount(key, accesses, limit); }
      f := LeastOf(hash, rows, key);
    }

    method Incr(key: BlockKey) returns (f: nat)
      requires Valid()
      modifies this
      ensures Valid() && accesses == old(accesses) + [key] && |rows| == |old(rows)|
      ensures Exact(key, accesses, limit) <= f <= MAX_COUNT
      ensures SomeRowAlone(hash, rows, key, accesses) ==> f == Exact(key, accesses, limit)
      ensures |accesses| <= limit ==> Estimates(f, multiset(accesses)[key], SomeRowAlone(hash, rows, key, accesses))
    {
      var full := WindowFull(window, limit);
      window := if full then 0 else window + 1;
      EstimateSound(hash, rows, key, accesses, limit);
      var next;
      next, f := BumpAll(hash, rows, key, full);
      RowsNext(hash, rows, next, accesses, limit, key);
      assert (accesses + [key])[..|accesses|] == accesses;
      rows, accesses := next, accesses + [key];
      EstimateSound(hash, rows, key, accesses, limit);
      if |accesses| <= limit { ExactIsCount(key, accesses, limit); }
    }
  }

  method LeastOf(hash: (nat, BlockKey) -> nat, rows: seq<seq<nat>>, key: BlockKey) returns (f: nat)
    requires Filled(rows)
    ensures f == Least(hash, rows, key, |rows|)
  {
    f := MAX_COUNT;
    for r := 0 to |rows|
      invariant f == Least(hash, rows, key, r)
    {
      f := Min(f, CellValue(hash, rows, r, key));
    }
  }

  lemma NextOne(hash: (nat, BlockKey) -> nat, rows: seq<seq<nat>>, next: seq<seq<nat>>, row: seq<nat>, key: BlockKey,
                full: bool)
    requires IsNext(hash, rows, next, key, full) && Filled(next) && |next| < |rows| && |rows[|next|]| > 0
    requires row == NextRow(rows[|next|], Cell(hash, |rows[|next|]|, |next|, key), full)
    ensures IsNext(hash, rows, next + [row], key, full) && Filled(next + [row])
  {
  }

  method BumpAll(hash: (nat, BlockKey) -> nat, rows: seq<seq<nat>>, key: BlockKey, full: bool)
    returns (next: seq<seq<nat>>, f: nat)
    requires Filled(rows)
    ensures |next| == |rows| && IsNext(hash, rows, next, key, full) && Filled(next)
            && f == Least(hash, next, key, |next|)
  {
    next, f := [], MAX_COUNT;
    for r := 0 to |rows|
      invariant |next| == r && IsNext(hash, rows, next, key, full) && Filled(next) && f == Least(hash, next, key, r)
    {
      var row := BumpRow(rows[r], Cell(hash, |rows[r]|, r, key), full);
      LeastFront(hash, next, row, key, r);
      NextOne(hash, rows, next, row, key, full);
      next := next + [row];
      f := Min(f, CellValue(hash, next, r, key));
    }
  }

  /** Halves the row when the window is full, then raises one counter. */
  method BumpRow(row: seq<nat>, cell: nat, full: bool) returns (after: seq<nat>)
    requires cell < |row|
    ensures after == NextRow(row, cell, full)
    ensures |after| == |row| && forall i | 0 <= i < |row| ::
              var aged := if full then row[i] / 2 else row[i];
              after[i] == if i == cell then Min(255, aged + 1) else aged
  {
    after := row;
    if full {
      for i := 0 to |row|
        invariant |after| == |row| && (forall j | 0 <= j < i :: after[j] == row[j] / 2)
                  && (forall j | i <= j < |row| :: after[j] == row[j])
      {
        after := after[i := after[i] / 2];
      }
      assert after == Halved(row);
    }
    if after[cell] < MAX_COUNT { after := after[cell := after[cell] + 1]; } else { after := after[cell := MAX_COUNT]; }
  }
}
