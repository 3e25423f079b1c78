/** The Walsh-Hadamard rotation over exact reals: the doubling loop builds a symmetric sign matrix S
    with S * S == n * I, so rotating rows twice gives them back. */
module Hadamard {

  function Pow2(k: nat): (n: nat)
    ensures n > 0
  {
    if k == 0 then 1 else 2 * Pow2(k - 1)
  }

  /** Whether the entry (i, j) of the sign matrix of size 2^k is +1. Each doubling copies the matrix
      into three quadrants and its negation into the fourth. */
  predicate Plus(k: nat, i: nat, j: nat)
    requires i < Pow2(k) && j < Pow2(k)
  {
    if k == 0 then true else
      var h := Pow2(k - 1);
      Plus(k - 1, Fold(i, h), Fold(j, h)) == !(i >= h && j >= h)
  }

  /** The row of the half-sized matrix that row i copies. */
  function Fold(i: nat, h: nat): nat {
    if i < h then i else i - h
  }

  function Signed(plus: bool, x: real): real {
    if plus then x else -x
  }

  function Mul(c: real, x: real): real { c * x }

  /** The matrix is symmetric. */
  lemma {:induction false} PlusSymmetric(k: nat, i: nat, j: nat)
    requires i < Pow2(k) && j < Pow2(k)
    ensures Plus(k, i, j) == Plus(k, j, i)
  {
    if k > 0 {
      PlusSymmetric(k - 1, Fold(i, Pow2(k - 1)), Fold(j, Pow2(k - 1)));
    }
  }

  // ----- S * S == n * I -----

  /** The first m terms of row i times column l, in signs. */
  function Dot(k: nat, i: nat, l: nat, m: nat): int
    requires i < Pow2(k) && l < Pow2(k) && m <= Pow2(k)
  {
    if m == 0 then 0 else Dot(k, i, l, m - 1) + if Plus(k, i, m - 1) == Plus(k, m - 1, l) then 1 else -1
  }

  /** The left half of a row is a row of the smaller matrix. */
  lemma {:induction false} DotLeft(k: nat, i: nat, l: nat, m: nat)
    requires k > 0 && i < Pow2(k) && l < Pow2(k) && m <= Pow2(k - 1)
    ensures Dot(k, i, l, m) == Dot(k - 1, Fold(i, Pow2(k - 1)), Fold(l, Pow2(k - 1)), m)
  {
    if m > 0 {
      DotLeft(k, i, l, m - 1);
    }
  }

  /** The right half too, negated where exactly one of the two rows is a lower one. */
  lemma {:induction false} DotRight(k: nat, i: nat, l: nat, m: nat)
    requires k > 0 && i < Pow2(k) && l < Pow2(k) && m <= Pow2(k - 1)
    ensures var h := Pow2(k - 1); var d := Dot(k - 1, Fold(i, h), Fold(l, h), m);
      Dot(k, i, l, h + m) == Dot(k, i, l, h) + if (i < h) == (l < h) then d else -d
  {
    if m > 0 {
      DotRight(k, i, l, m - 1);
    }
  }

  /** Distinct rows are orthogonal, and each row has square n. */
  lemma {:induction false} SquareIsScaledIdentity(k: nat, i: nat, l: nat)
    requires i < Pow2(k) && l < Pow2(k)
    ensures Dot(k, i, l, Pow2(k)) == if i == l then Pow2(k) else 0
  {
    if k == 0 {
      assert Dot(0, 0, 0, 1) == Dot(0, 0, 0, 0) + 1;
    } else {
      var h := Pow2(k - 1);
      SquareIsScaledIdentity(k - 1, Fold(i, h), Fold(l, h));
      DotLeft(k, i, l, h);
      DotRight(k, i, l, h);
    }
  }

  // ----- Rotating a vector -----

  /** The first m terms of row i of the sign matrix times x. */
  function RowTimes(k: nat, x: seq<real>, i: nat, m: nat): real
    requires |x| == Pow2(k) && i < Pow2(k) && m <= Pow2(k)
  {
    if m == 0 then 0.0 else RowTimes(k, x, i, m - 1) + Signed(Plus(k, i, m - 1), x[m - 1])
  }

  function Times(k: nat, x: seq<real>): (y: seq<real>)
    requires |x| == Pow2(k)
    ensures |y| == |x| && forall i :: 0 <= i < |x| ==> y[i] == RowTimes(k, x, i, Pow2(k))
  {
    seq(|x|, i requires 0 <= i < |x| => RowTimes(k, x, i, Pow2(k)))
  }

  lemma {:induction false} RowLeft(k: nat, x: seq<real>, i: nat, m: nat)
    requires k > 0 && |x| == Pow2(k) && i < Pow2(k) && m <= Pow2(k - 1)
    ensures RowTimes(k, x, i, m) == RowTimes(k - 1, x[..Pow2(k - 1)], Fold(i, Pow2(k - 1)), m)
  {
    if m > 0 {
      RowLeft(k, x, i, m - 1);
    }
  }

  lemma {:induction false} RowRight(k: nat, x: seq<real>, i: nat, m: nat)
    requires k > 0 && |x| == Pow2(k) && i < Pow2(k) && m <= Pow2(k - 1)
    ensures var h := Pow2(k - 1);
      RowTimes(k, x, i, h + m) == RowTimes(k, x, i, h) + Signed(i < h, RowTimes(k - 1, x[h..], Fold(i, h), m))
  {
    if m > 0 {
      RowRight(k, x, i, m - 1);
    }
  }

  /** Row i times x, from the halves of x. */
  lemma RowHalves(k: nat, x: seq<real>, i: nat)
    requires k > 0 && |x| == Pow2(k) && i < Pow2(k)
    ensures var h := Pow2(k - 1);
      Times(k, x)[i] == Times(k - 1, x[..h])[Fold(i, h)] + Signed(i < h, Times(k - 1, x[h..])[Fold(i, h)])
  {
    RowLeft(k, x, i, Pow2(k - 1));
    RowRight(k, x, i, Pow2(k - 1));
  }

  lemma {:induction false} RowLinear(k: nat, u: seq<real>, v: seq<real>, w: seq<real>, plus: bool, i: nat, m: nat)
    requires |u| == |v| == |w| == Pow2(k) && i < Pow2(k) && m <= Pow2(k)
    requires forall j :: 0 <= j < |w| ==> w[j] == u[j] + Signed(plus, v[j])
    ensures RowTimes(k, w, i, m) == RowTimes(k, u, i, m) + Signed(plus, RowTimes(k, v, i, m))
  {
    if m > 0 {
      RowLinear(k, u, v, w, plus, i, m - 1);
    }
  }

  /** The upper half of S x is A a + A b and the lower half A a - A b, for the halves a, b of x. */
  lemma TimesHalves(k: nat, x: seq<real>, j: nat)
    requires k > 0 && |x| == Pow2(k) && j < Pow2(k - 1)
    ensures var h := Pow2(k - 1);
      && Times(k, x)[..h][j] == Times(k - 1, x[..h])[j] + Signed(true, Times(k - 1, x[h..])[j])
      && Times(k, x)[h..][j] == Times(k - 1, x[..h])[j] + Signed(false, Times(k - 1, x[h..])[j])
  {
    var h := Pow2(k - 1);
    RowHalves(k, x, j);
    RowHalves(k, x, h + j);
  }

  /** Multiplying by S twice scales by n. */
  lemma {:induction false} TimesTwice(k: nat, x: seq<real>, i: nat)
    requires |x| == Pow2(k) && i < Pow2(k)
    ensures Times(k, Times(k, x))[i] == Mul(Pow2(k) as real, x[i])
  {
    hide RowTimes;
    if k == 0 {
      TimesOne(x);
      TimesOne(Times(0, x));
    } else {
      hide Mul;
      var h, y := Pow2(k - 1), Times(k, x);
      var a, b := Times(k - 1, x[..h]), Times(k - 1, x[h..]);
      forall j | 0 <= j < h
        ensures y[..h][j] == a[j] + Signed(true, b[j]) && y[h..][j] == a[j] + Signed(false, b[j])
      {
        TimesHalves(k, x, j);
      }
      RowHalves(k, y, i);
      RowLinear(k - 1, a, b, y[..h], true, Fold(i, h), h);
      RowLinear(k - 1, a, b, y[h..], false, Fold(i, h), h);
      TimesTwice(k - 1, x[..h], Fold(i, h));
      TimesTwice(k - 1, x[h..], Fold(i, h));
      MulDouble(Pow2(k - 1) as real, x[i]);
    }
  }

  lemma MulDouble(n: real, x: real)
    ensures Mul(2.0 * n, x) == Mul(n, x) + Mul(n, x)
  {
  }

  lemma TimesOne(x: seq<real>)
    requires |x| == 1
    ensures Times(0, x) == x
  {
    assert RowTimes(0, x, 0, 1) == RowTimes(0, x, 0, 0) + Signed(Plus(0, 0, 0), x[0]);
  }

  function Scaled(c: real, x: seq<real>): (y: seq<real>)
    ensures |y| == |x| && forall i :: 0 <= i < |x| ==> y[i] == Mul(c, x[i])
  {
    seq(|x|, i requires 0 <= i < |x| => Mul(c, x[i]))
  }

  lemma {:induction false} RowScaled(k: nat, c: real, x: seq<real>, i: nat, m: nat)
    requires |x| == Pow2(k) && i < Pow2(k) && m <= Pow2(k)
    ensures RowTimes(k, Scaled(c, x), i, m) == Mul(c, RowTimes(k, x, i, m))
  {
    hide Mul, Plus;
    if m == 0 {
      MulZero(c);
    } else {
      RowScaled(k, c, x, i, m - 1);
      Distribute(c, RowTimes(k, x, i, m - 1), Plus(k, i, m - 1), x[m - 1]);
    }
  }

  lemma MulZero(c: real)
    ensures Mul(c, 0.0) == 0.0
  {
  }

  lemma Distribute(c: real, x: real, plus: bool, y: real)
    ensures Mul(c, x + Signed(plus, y)) == Mul(c, x) + Signed(plus, Mul(c, y))
  {
  }

  /** Rotating one chunk: H = c * S. */
  function Rotate(k: nat, c: real, x: seq<real>): (y: seq<real>)
    requires |x| == Pow2(k)
    ensures |y| == |x|
  {
    Scaled(c, Times(k, x))
  }

  /** With c * c * n == 1 the rotation is its own inverse. */
  lemma RotateTwice(k: nat, c: real, x: seq<real>)
    requires |x| == Pow2(k) && c * c * (Pow2(k) as real) == 1.0
    ensures Rotate(k, c, Rotate(k, c, x)) == x
  {
    hide Mul, RowTimes;
    var y := Times(k, x);
    forall i | 0 <= i < |x| ensures Rotate(k, c, Rotate(k, c, x))[i] == x[i] {
      RowScaled(k, c, y, i, Pow2(k));
      TimesTwice(k, x, i);
      Cancel(c, Pow2(k) as real, x[i]);
    }
  }

  lemma Cancel(c: real, n: real, x: real)
    requires c * c * n == 1.0
    ensures Mul(c, Mul(c, Mul(n, x))) == x
  {
    assert c * (c * (n * x)) == (c * c * n) * x;
  }

  /** Rotating every chunk of n values. */
  function RotateAll(k: nat, c: real, xs: seq<real>): (ys: seq<real>)
    ensures |ys| == |xs|
    decreases |xs|
  {
    if |xs| < Pow2(k) then xs else Rotate(k, c, xs[..Pow2(k)]) + RotateAll(k, c, xs[Pow2(k)..])
  }

  /** Rotating all rows twice gives back every row. */
  lemma {:induction false} RotateAllTwice(k: nat, c: real, xs: seq<real>)
    requires c * c * (Pow2(k) as real) == 1.0
    ensures RotateAll(k, c, RotateAll(k, c, xs)) == xs
    decreases |xs|
  {
    var n := Pow2(k);
    if |xs| >= n {
      var ys := RotateAll(k, c, xs);
      assert ys[..n] == Rotate(k, c, xs[..n]) && ys[n..] == RotateAll(k, c, xs[n..]);
      RotateTwice(k, c, xs[..n]);
      RotateAllTwice(k, c, xs[n..]);
      assert xs == xs[..n] + xs[n..];
    }
  }
}
