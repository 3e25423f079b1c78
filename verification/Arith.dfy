/** Block arithmetic: cutting a row history into blocks of `bt` rows. The functions count blocks one
    by one, which keeps every proof about them linear; `IsDivMod` says they are the usual
    multiplication, division and remainder. */
module Arith {

  /** Rows in the first i blocks, i * bt; none before a block that does not exist. */
  function Before(i: int, bt: nat): nat
    decreases if i > 0 then i else 0
  {
    if i <= 0 then 0 else Before(i - 1, bt) + bt
  }

  /** The block of row r, r / bt. */
  function BlockOf(r: nat, bt: nat): nat
    requires bt > 0
    decreases r
  {
    if r < bt then 0 else BlockOf(r - bt, bt) + 1
  }

  /** The offset of row r in its block, r % bt. */
  function OffsetOf(r: nat, bt: nat): (o: nat)
    requires bt > 0
    ensures o < bt
    decreases r
  {
    if r < bt then r else OffsetOf(r - bt, bt)
  }

  /** Blocks needed for n rows, (n + bt - 1) / bt. */
  function BlocksFor(n: nat, bt: nat): nat
    requires bt > 0
    decreases n
  {
    if n == 0 then 0 else if n <= bt then 1 else BlocksFor(n - bt, bt) + 1
  }

  lemma {:induction false} BeforeMono(a: int, b: int, bt: nat)
    ensures a <= b ==> Before(a, bt) <= Before(b, bt)
    ensures a < b && b > 0 ==> Before(a, bt) + bt <= Before(b, bt)
    decreases if b > 0 then b else 0
  {
    if b > 0 && a < b {
      BeforeMono(a, b - 1, bt);
    }
  }

  lemma {:induction false} BeforeShift(i: nat, bt: nat)
    ensures Before(i + 1, bt) == Before(i, bt) + bt
  {
  }

  /** Row r lies in its block at its offset. */
  lemma {:induction false} RowSplit(r: nat, bt: nat)
    requires bt > 0
    ensures r == Before(BlockOf(r, bt), bt) + OffsetOf(r, bt)
    decreases r
  {
    if r >= bt {
      RowSplit(r - bt, bt);
    }
  }

  /** Row o of block q lies in block q at offset o, and nowhere else. */
  lemma {:induction false} RowUnique(q: nat, o: nat, bt: nat)
    requires bt > 0 && o < bt
    ensures BlockOf(Before(q, bt) + o, bt) == q && OffsetOf(Before(q, bt) + o, bt) == o
    decreases q
  {
    if q > 0 {
      RowUnique(q - 1, o, bt);
    }
  }

  /** Block i is needed for n rows exactly when its first row is below n. */
  lemma {:induction false} BlocksForCovers(n: nat, bt: nat, i: nat)
    requires bt > 0
    ensures i < BlocksFor(n, bt) <==> Before(i, bt) < n
    decreases n
  {
    if n > bt && i > 0 {
      BlocksForCovers(n - bt, bt, i - 1);
    } else if i > 0 {
      BeforeMono(1, i, bt);
    }
  }

  lemma BlocksForMono(m: nat, n: nat, bt: nat)
    requires bt > 0 && m <= n
    ensures BlocksFor(m, bt) <= BlocksFor(n, bt)
  {
    BlocksForCovers(m, bt, BlocksFor(n, bt));
    BlocksForCovers(n, bt, BlocksFor(n, bt));
  }

  lemma {:induction false} BlockOfMono(a: nat, b: nat, bt: nat)
    requires bt > 0 && a <= b
    ensures BlockOf(a, bt) <= BlockOf(b, bt) <= BlocksFor(b, bt)
    decreases b
  {
    if b >= bt {
      BlockOfMono(if a >= bt then a - bt else 0, b - bt, bt);
    }
  }

  lemma CellInjective(s1: nat, o1: nat, s2: nat, o2: nat, bt: nat)
    requires bt > 0 && o1 < bt && o2 < bt && Before(s1, bt) + o1 == Before(s2, bt) + o2
    ensures s1 == s2 && o1 == o2
  {
    BeforeMono(s1, s2, bt);
    BeforeMono(s2, s1, bt);
  }

  lemma {:induction false} BlocksForExact(k: nat, bt: nat)
    requires bt > 0
    ensures BlocksFor(Before(k, bt), bt) == k
  {
    if k > 1 {
      BlocksForExact(k - 1, bt);
      BeforeMono(1, k, bt);
    }
  }

  /** Two rows in one cell share slot and offset; if they share the block too they are one row. */
  lemma CellRows(s1: nat, r1: nat, s2: nat, r2: nat, bt: nat)
    requires bt > 0 && Before(s1, bt) + OffsetOf(r1, bt) == Before(s2, bt) + OffsetOf(r2, bt)
    ensures s1 == s2 && (BlockOf(r1, bt) == BlockOf(r2, bt) ==> r1 == r2)
  {
    CellInjective(s1, OffsetOf(r1, bt), s2, OffsetOf(r2, bt), bt);
    RowSplit(r1, bt);
    RowSplit(r2, bt);
  }

  lemma RowInBlock(r: nat, bt: nat, n: nat)
    requires bt > 0 && r < n
    ensures BlockOf(r, bt) < BlocksFor(n, bt) && r == Before(BlockOf(r, bt), bt) + OffsetOf(r, bt)
  {
    RowSplit(r, bt);
    BlocksForCovers(n, bt, BlockOf(r, bt));
  }

  lemma {:induction false} IsMul(i: nat, bt: nat)
    ensures Before(i, bt) == i * bt
  {
    if i > 0 {
      IsMul(i - 1, bt);
      assert i * bt == (i - 1) * bt + bt;
    }
  }

  lemma DivIs(x: nat, bt: nat, q: nat, o: nat)
    requires bt > 0 && x == q * bt + o && o < bt
    ensures x / bt == q && x % bt == o
  {
    var d := x / bt;
    assert x == d * bt + x % bt;
    IsMul(q, bt);
    IsMul(d, bt);
    BeforeMono(d, q, bt);
    BeforeMono(q, d, bt);
  }

  /** The counting functions are multiplication, division and remainder. */
  lemma IsDivMod(r: nat, bt: nat)
    requires bt > 0
    ensures Before(r, bt) == r * bt
    ensures BlockOf(r, bt) == r / bt && OffsetOf(r, bt) == r % bt
    ensures BlocksFor(r, bt) == (r + bt - 1) / bt
  {
    IsMul(r, bt);
    RowSplit(r, bt);
    IsMul(BlockOf(r, bt), bt);
    DivIs(r, bt, BlockOf(r, bt), OffsetOf(r, bt));
    IsCeil(r, bt, BlocksFor(r, bt));
  }

  lemma IsCeil(r: nat, bt: nat, k: nat)
    requires bt > 0 && k == BlocksFor(r, bt)
    ensures (r + bt - 1) / bt == k
  {
    if r == 0 {
      DivIs(bt - 1, bt, 0, bt - 1);
    } else {
      BlocksForCovers(r, bt, k);
      BlocksForCovers(r, bt, k - 1);
      BeforeShift(k - 1, bt);
      IsMul(k, bt);
      DivIs(r + bt - 1, bt, k, r + bt - 1 - Before(k, bt));
    }
  }
}
