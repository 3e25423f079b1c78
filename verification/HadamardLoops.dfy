/** The loops of the Hadamard rotation: filling the matrix by doubling, rotating the chunks of every row
    in place, and choosing the chunk size. */
module HadamardLoops {
  import opened Arith
  import opened Hadamard

  /** Row-major place of entry (i, j) in an n x n matrix. */
  function Place(n: nat, i: nat, j: nat): (p: nat)
    requires i < n && j < n
    ensures p < Before(n, n)
  {
    BeforeMono(0, i, n);
    BeforeMono(i, n, n);
    Before(i, n) + j
  }

  function At(data: array<real>, n: nat, i: nat, j: nat): real
    requires data.Length == Before(n, n) && i < n && j < n
    reads data
  {
    data[Place(n, i, j)]
  }

  method Put(data: array<real>, n: nat, i: nat, j: nat, v: real)
    requires data.Length == Before(n, n) && i < n && j < n
    modifies data
    ensures forall p: nat, q: nat :: p < n && q < n ==>
              At(data, n, p, q) == if p == i && q == j then v else old(At(data, n, p, q))
  {
    data[Place(n, i, j)] := v;
    forall p: nat, q: nat | p < n && q < n
      ensures At(data, n, p, q) == if p == i && q == j then v else old(At(data, n, p, q))
    {
      if Place(n, p, q) == Place(n, i, j) {
        CellInjective(p, q, i, j, n);
      }
    }
  }

  /** One pass of the doubling loop copies row i of the s x s corner into three places, one negated. */
  method CopyRow(data: array<real>, n: nat, s: nat, i: nat)
    requires data.Length == Before(n, n) && i < s && 2 * s <= n
    modifies data
    ensures forall p: nat, q: nat :: p < n && q < n ==>
              At(data, n, p, q) == Copied(old(At(data, n, p, q)), s, i, s, p, q,
              if Fold(p, s) == i && Fold(q, s) < s then old(At(data, n, i, Fold(q, s))) else 0.0)
  {
    for j := 0 to s
      invariant forall p: nat, q: nat :: p < n && q < n ==>
                At(data, n, p, q) == Copied(old(At(data, n, p, q)), s, i, j, p, q,
                  if Fold(p, s) == i && Fold(q, s) < s then old(At(data, n, i, Fold(q, s))) else 0.0)
    {
      var val := At(data, n, i, j);
      Put(data, n, i + s, j, val);
      Put(data, n, i, j + s, val);
      Put(data, n, i + s, j + s, -val);
    }
  }

  /** Entry (p, q) after the first m columns of row i were copied from source value v. */
  function Copied(was: real, s: nat, i: nat, m: nat, p: nat, q: nat, v: real): real {
    if Fold(p, s) == i && Fold(q, s) < m && p < 2 * s && (p >= s || q >= s) then Signed(!(p >= s && q >= s), v) else was
  }

  /** The s x s corner holds the sign matrix of size 2^k == s, scaled by c. */
  ghost predicate Corner(data: array<real>, n: nat, k: nat, c: real)
    requires data.Length == Before(n, n)
    reads data
  {
    Pow2(k) <= n &&
    forall p: nat, q: nat :: p < Pow2(k) && q < Pow2(k) ==> At(data, n, p, q) == Signed(Plus(k, p, q), c)
  }

  /** One doubling: the corner of size 2^k grows to size 2^(k + 1). */
  method Double(data: array<real>, n: nat, ghost k: nat, s: nat, ghost c: real)
    requires data.Length == Before(n, n) && s == Pow2(k) && 2 * s <= n && Corner(data, n, k, c)
    modifies data
    ensures Corner(data, n, k + 1, c)
  {
    for i := 0 to s
      invariant Corner(data, n, k, c)
      invariant forall p: nat, q: nat :: p < 2 * s && q < 2 * s && Fold(p, s) < i ==>
                At(data, n, p, q) == Signed(Plus(k + 1, p, q), c)
    {
      CopyRow(data, n, s, i);
    }
  }

  /** The matrix of size n == 2^k with entries c and -c, where c * c * n == 1. */
  method BuildMatrix(ghost k: nat, n: nat, c: real) returns (data: array<real>)
    requires n == Pow2(k)
    ensures fresh(data) && data.Length == Before(n, n) && Corner(data, n, k, c)
  {
    BeforeMono(1, n, n);
    data := new real[Before(n, n)](_ => 0.0);
    data[0] := c;
    var s := 1;
    ghost var e := 0;
    while s < n
      invariant e <= k && s == Pow2(e) && Corner(data, n, e, c)
      decreases k - e
    {
      PowersNest(e, k);
      Double(data, n, e, s, c);
      s, e := s * 2, e + 1;
    }
    PowersNest(e, k);
  }

  lemma {:induction false} PowersNest(e: nat, k: nat)
    requires e <= k
    ensures e < k ==> 2 * Pow2(e) <= Pow2(k)
    decreases k
  {
    if e < k - 1 {
      PowersNest(e, k - 1);
    }
  }

  // ----- Rotating rows in place -----

  /** One output value: row i of the matrix times the chunk at `base`. */
  method RowSum(rows: array<real>, base: nat, data: array<real>, n: nat, ghost k: nat, ghost c: real, i: nat)
    returns (acc: real)
    requires n == Pow2(k) && data.Length == Before(n, n) && Corner(data, n, k, c) && i < n && base + n <= rows.Length
    ensures acc == Mul(c, RowTimes(k, rows[base..base + n], i, n))
  {
    acc := 0.0;
    ghost var x := rows[base..base + n];
    MulZero(c);
    for j := 0 to n
      invariant acc == Mul(c, RowTimes(k, x, i, j))
    {
      Distribute(c, RowTimes(k, x, i, j), Plus(k, i, j), x[j]);
      SignOut(c, Plus(k, i, j), x[j]);
      acc := acc + At(data, n, i, j) * rows[base + j];
    }
  }

  lemma SignOut(c: real, plus: bool, x: real)
    ensures Signed(plus, c) * x == Signed(plus, Mul(c, x))
  {
  }

  /** Rotate the n values at `base`, through a scratch row. */
  method RotateChunk(rows: array<real>, base: nat, data: array<real>, n: nat, ghost k: nat, ghost c: real)
    requires n == Pow2(k) && data.Length == Before(n, n) && Corner(data, n, k, c)
    requires base + n <= rows.Length && rows != data
    modifies rows
    ensures rows[..] == old(rows[..base]) + Rotate(k, c, old(rows[base..base + n])) + old(rows[base + n..])
  {
    var tmp := new real[n];
    ghost var x := rows[base..base + n];
    for i := 0 to n
      invariant rows[..] == old(rows[..])
      invariant forall p :: 0 <= p < i ==> tmp[p] == Rotate(k, c, x)[p]
    {
      var acc := RowSum(rows, base, data, n, k, c, i);
      tmp[i] := acc;
    }
    CopyBack(rows, base, tmp);
    assert tmp[..] == Rotate(k, c, x);
  }

  method CopyBack(rows: array<real>, base: nat, tmp: array<real>)
    requires base + tmp.Length <= rows.Length && rows != tmp
    modifies rows
    ensures rows[..] == old(rows[..base]) + old(tmp[..]) + old(rows[base + tmp.Length..])
  {
    forall p | 0 <= p < tmp.Length {
      rows[base + p] := tmp[p];
    }
  }

  lemma RotateAllFirst(k: nat, c: real, xs: seq<real>)
    requires |xs| >= Pow2(k)
    ensures RotateAll(k, c, xs) == Rotate(k, c, xs[..Pow2(k)]) + RotateAll(k, c, xs[Pow2(k)..])
  {
  }

  /** Chunks rotate independently. */
  lemma {:induction false} RotateAllSplit(k: nat, c: real, a: seq<real>, b: seq<real>, chunks: nat)
    requires |a| == Before(chunks, Pow2(k))
    ensures RotateAll(k, c, a + b) == RotateAll(k, c, a) + RotateAll(k, c, b)
    decreases chunks
  {
    hide RotateAll, Rotate, Pow2;
    var n := Pow2(k);
    if chunks == 0 {
      assert a == [] && a + b == b;
      RotateAllNone(k, c);
    } else {
      BeforeMono(0, chunks - 1, n);
      RotateAllSplit(k, c, a[n..], b, chunks - 1);
      RotateAllFirst(k, c, a);
      RotateAllFirst(k, c, a + b);
      assert (a + b)[..n] == a[..n] && (a + b)[n..] == a[n..] + b;
      assert Rotate(k, c, a[..n]) + (RotateAll(k, c, a[n..]) + RotateAll(k, c, b)) ==
             RotateAll(k, c, a) + RotateAll(k, c, b);
    }
  }

  lemma RotateAllNone(k: nat, c: real)
    ensures RotateAll(k, c, []) == []
  {
  }

  /** What has been rotated after the first `chunks` chunks. */
  ghost predicate Rotated(rows: seq<real>, was: seq<real>, k: nat, c: real, chunks: nat) {
    var p := Before(chunks, Pow2(k));
    |rows| == |was| && p <= |was| && rows == RotateAll(k, c, was[..p]) + was[p..]
  }

  lemma RotatedNext(rows: seq<real>, next: seq<real>, was: seq<real>, k: nat, c: real, chunks: nat, p: nat)
    requires Rotated(rows, was, k, c, chunks) && p == Before(chunks, Pow2(k)) && p + Pow2(k) <= |was|
    requires next == rows[..p] + Rotate(k, c, rows[p..p + Pow2(k)]) + rows[p + Pow2(k)..]
    ensures Rotated(next, was, k, c, chunks + 1)
  {
    hide Before, Rotate;
    var n, chunk := Pow2(k), was[p..p + Pow2(k)];
    BeforeShift(chunks, n);
    assert rows[p..p + n] == chunk && rows[p + n..] == was[p + n..] && rows[..p] == RotateAll(k, c, was[..p]);
    RotateAllSplit(k, c, was[..p], chunk, chunks);
    assert was[..p + n] == was[..p] + chunk;
    RotateAllOne(k, c, chunk);
  }

  lemma RotateAllOne(k: nat, c: real, chunk: seq<real>)
    requires |chunk| == Pow2(k)
    ensures RotateAll(k, c, chunk) == Rotate(k, c, chunk)
  {
    hide Rotate;
    assert chunk[..Pow2(k)] == chunk && chunk[Pow2(k)..] == [];
    assert RotateAll(k, c, []) == [];
  }

  /** Rotate the chunks of one head. */
  method RotateHead(rows: array<real>, base: nat, perHead: nat, data: array<real>, n: nat, ghost k: nat, ghost c: real,
                    ghost was: seq<real>, ghost chunks: nat)
    requires n == Pow2(k) && data.Length == Before(n, n) && Corner(data, n, k, c) && rows != data
    requires base == Before(chunks, n) && base + Before(perHead, n) <= rows.Length
    requires Rotated(rows[..], was, k, c, chunks)
    modifies rows
    ensures Rotated(rows[..], was, k, c, chunks + perHead)
  {
    hide Rotated, RotateAll, Rotate, Corner, Before, Pow2;
    for off := 0 to perHead
      invariant Rotated(rows[..], was, k, c, chunks + off)
    {
      NextChunk(chunks, off, perHead, n);
      ghost var before := rows[..];
      RotatedSize(before, was, k, c, chunks + off);
      RotateChunk(rows, base + Before(off, n), data, n, k, c);
      RotatedNext(before, rows[..], was, k, c, chunks + off, base + Before(off, n));
    }
  }

  lemma NextChunk(chunks: nat, off: nat, perHead: nat, n: nat)
    requires off < perHead
    ensures Before(chunks + off, n) == Before(chunks, n) + Before(off, n) && Before(chunks, n) >= 0
    ensures 0 <= Before(off, n) && Before(off, n) + n <= Before(perHead, n)
  {
    BeforeAdd(chunks, off, n);
    BeforeMono(off, perHead, n);
    BeforeMono(0, off, n);
    BeforeMono(0, chunks, n);
  }

  lemma RotatedSize(rows: seq<real>, was: seq<real>, k: nat, c: real, chunks: nat)
    requires Rotated(rows, was, k, c, chunks)
    ensures |rows| == |was|
  {
  }

  lemma {:induction false} BeforeAdd(a: nat, b: nat, n: nat)
    ensures Before(a + b, n) == Before(a, n) + Before(b, n)
  {
    if b > 0 {
      BeforeAdd(a, b - 1, n);
    }
  }

  lemma {:induction false} BeforeNest(h: nat, per: nat, n: nat)
    ensures Before(h, Before(per, n)) == Before(Before(h, per), n)
  {
    if h > 0 {
      BeforeNest(h - 1, per, n);
      BeforeMono(0, h - 1, per);
      BeforeMono(0, per, n);
      BeforeAdd(Before(h - 1, per), per, n);
    }
  }

  lemma Unrotated(was: seq<real>, k: nat, c: real)
    ensures Rotated(was, was, k, c, 0)
  {
  }

  lemma AllRotated(rows: seq<real>, was: seq<real>, k: nat, c: real, chunks: nat)
    requires Rotated(rows, was, k, c, chunks) && Before(chunks, Pow2(k)) == |was|
    ensures rows == RotateAll(k, c, was)
  {
    assert was[..|was|] == was && was[|was|..] == [];
    assert RotateAll(k, c, was) + [] == RotateAll(k, c, was);
  }

  /** kvmem_hadamard_rows: rotate each n-chunk of every head of every row. Heads that are not made of
      whole chunks leave the rows alone. */
  method RotateRows(rows: array<real>, nRows: nat, heads: nat, headSize: nat, n: nat, ghost k: nat, c: real)
    requires n == Pow2(k) && rows.Length == Before(nRows, Before(heads, headSize))
    modifies rows
    ensures rows[..] == if headSize < n || OffsetOf(headSize, n) != 0 then old(rows[..])
        else RotateAll(k, c, old(rows[..]))
  {
    IsDivMod(headSize, n);
    if headSize < n || headSize % n != 0 {
      return;
    }
    ghost var was, perHead := rows[..], BlockOf(headSize, n);
    RowSplit(headSize, n);
    var data := BuildMatrix(k, n, c);
    ghost var perRow := Before(heads, perHead);
    Unrotated(was, k, c);
    hide Before, OffsetOf, BlockOf, Rotated;
    Next(0, 0, 0, perRow);
    for t := 0 to nRows
      invariant Corner(data, n, k, c) && Rotated(rows[..], was, k, c, Before(t, perRow))
    {
      RotateRow(rows, t, nRows, heads, headSize, headSize / n, data, n, k, c, was);
    }
    BeforeNest(heads, perHead, n);
    BeforeNest(nRows, perRow, n);
    AllRotated(rows[..], was, k, c, Before(nRows, perRow));
  }

  /** Rotate the heads of one row. */
  method RotateRow(rows: array<real>, t: nat, nRows: nat, heads: nat, headSize: nat, perHead: nat,
                   data: array<real>, n: nat, ghost k: nat, ghost c: real, ghost was: seq<real>)
    requires n == Pow2(k) && data.Length == Before(n, n) && Corner(data, n, k, c) && rows != data
    requires headSize == Before(perHead, n) && rows.Length == Before(nRows, Before(heads, headSize)) && t < nRows
    requires Rotated(rows[..], was, k, c, Before(t, Before(heads, perHead)))
    modifies rows
    ensures Rotated(rows[..], was, k, c, Before(t + 1, Before(heads, perHead)))
  {
    hide Rotated, Before;
    ghost var perRow := Before(heads, perHead);
    NonNegative(t, perRow);
    Next(0, perHead, t, perRow);
    for h := 0 to heads
      invariant Rotated(rows[..], was, k, c, Before(t, perRow) + Before(h, perHead))
    {
      var base := Before(t, Before(heads, headSize)) + Before(h, headSize);
      HeadAt(t, nRows, h, heads, perHead, n);
      NonNegative(h, perHead);
      RotateHead(rows, base, perHead, data, n, k, c, was, Before(t, perRow) + Before(h, perHead));
      Next(h, perHead, t, perRow);
    }
  }

  lemma NonNegative(i: nat, n: nat)
    ensures Before(i, n) >= 0
  {
    BeforeMono(0, i, n);
  }

  lemma Next(h: nat, per: nat, t: nat, perRow: nat)
    ensures Before(h + 1, per) == Before(h, per) + per && Before(0, per) == 0
    ensures Before(t + 1, perRow) == Before(t, perRow) + perRow && Before(0, perRow) == 0
  {
  }

  /** Head h of row t starts at a chunk boundary and lies inside the rows. */
  lemma HeadAt(t: nat, nRows: nat, h: nat, heads: nat, perHead: nat, n: nat)
    requires t < nRows && h < heads
    ensures var headSize, perRow := Before(perHead, n), Before(heads, perHead);
      var at := Before(t, perRow) + Before(h, perHead);
      && Before(t, Before(heads, headSize)) + Before(h, headSize) == Before(at, n) >= 0
      && Before(at, n) + headSize <= Before(nRows, Before(heads, headSize))
  {
    hide Before;
    var headSize, perRow := Before(perHead, n), Before(heads, perHead);
    NonNegative(heads, perHead);
    NonNegative(t, perRow);
    NonNegative(h, perHead);
    NonNegative(perHead, n);
    BeforeNest(heads, perHead, n);
    BeforeNest(h, perHead, n);
    BeforeNest(t, perRow, n);
    BeforeAdd(Before(t, perRow), Before(h, perHead), n);
    NonNegative(Before(t, perRow) + Before(h, perHead), n);
    NonNegative(heads, headSize);
    BeforeMono(h, heads, headSize);
    BeforeMono(t, nRows, Before(heads, headSize));
  }

  // ----- The chunk size -----

  /** kvmem_hadamard_nrot_k: the largest power of two that divides a multiple of 64. Any other head size
      gets 64, which does not divide it. */
  method ChunkSize(headSize: nat) returns (n: nat, ghost k: nat)
    requires headSize > 0
    ensures k >= 6 && n == Pow2(k) && headSize % (2 * n) != 0
    ensures headSize % 64 == 0 ==> headSize % n == 0
    ensures headSize % 64 != 0 ==> n == 64
  {
    assert Pow2(6) == 64 by {
      assert Pow2(0) == 1 && Pow2(1) == 2 && Pow2(2) == 4 && Pow2(3) == 8 && Pow2(4) == 16;
    }
    n, k := 128, 7;
    while headSize % n == 0
      invariant k >= 7 && n == Pow2(k)
      invariant k > 7 ==> headSize % Pow2(k - 1) == 0
      decreases headSize - n
    {
      AtLeast(headSize, n);
      n, k := n * 2, k + 1;
    }
    if k > 7 {
      PowersDivide(6, k - 1, headSize);
    }
    n, k := n / 2, k - 1;
  }

  lemma AtLeast(x: nat, n: nat)
    requires x > 0 && n > 0 && x % n == 0
    ensures n <= x
  {
  }

  /** Smaller powers of two divide whatever larger ones divide. */
  lemma {:induction false} PowersDivide(e: nat, k: nat, x: nat)
    requires e <= k && x % Pow2(k) == 0
    ensures x % Pow2(e) == 0
    decreases k
  {
    if e < k {
      HalfDivides(x, Pow2(k - 1));
      PowersDivide(e, k - 1, x);
    }
  }

  lemma HalfDivides(x: nat, n: nat)
    requires n > 0 && x % (2 * n) == 0
    ensures x % n == 0
  {
    var q := x / (2 * n);
    assert x == 2 * n * q == n * (2 * q);
    IsMul(2 * q, n);
    DivIs(x, n, 2 * q, 0);
  }

  /** No larger power of two divides the head size. */
  lemma ChunkSizeIsLargest(headSize: nat, k: nat, e: nat)
    requires headSize % (2 * Pow2(k)) != 0 && e > k
    ensures headSize % Pow2(e) != 0
  {
    if headSize % Pow2(e) == 0 {
      PowersDivide(k + 1, e, headSize);
    }
  }
}
