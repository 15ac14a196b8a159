/** Finite sums of real-valued functions over an initial segment of the naturals. */
module Sums {

  function Sum(n: nat, f: int -> real): real {
    if n == 0 then 0.0 else Sum(n - 1, f) + f(n - 1)
  }

  lemma {:induction false} SumCongruence(n: nat, f: int -> real, g: int -> real)
    requires forall i | 0 <= i < n :: f(i) == g(i)
    ensures Sum(n, f) == Sum(n, g)
  {
    if n != 0 {
      SumCongruence(n - 1, f, g);
    }
  }

  lemma {:induction false} SumZero(n: nat, f: int -> real)
    requires forall i | 0 <= i < n :: f(i) == 0.0
    ensures Sum(n, f) == 0.0
  {
    if n != 0 {
      SumZero(n - 1, f);
    }
  }

  lemma {:induction false} SumScale(n: nat, a: real, f: int -> real, g: int -> real)
    requires forall i | 0 <= i < n :: g(i) == a * f(i)
    ensures Sum(n, g) == a * Sum(n, f)
  {
    if n != 0 {
      SumScale(n - 1, a, f, g);
      assert a * (Sum(n - 1, f) + f(n - 1)) == a * Sum(n - 1, f) + a * f(n - 1);
    }
  }

  lemma {:induction false} SumAdd(n: nat, f: int -> real, g: int -> real, h: int -> real)
    requires forall i | 0 <= i < n :: h(i) == f(i) + g(i)
    ensures Sum(n, h) == Sum(n, f) + Sum(n, g)
  {
    if n != 0 {
      SumAdd(n - 1, f, g, h);
    }
  }

  /** A sum whose only nonzero term sits at `t` is that term, or nothing if `t` is out of range. */
  lemma {:induction false} SumSingle(n: nat, t: int, f: int -> real)
    requires forall i | 0 <= i < n && i != t :: f(i) == 0.0
    ensures Sum(n, f) == if 0 <= t < n then f(t) else 0.0
  {
    if n != 0 {
      if t == n - 1 {
        SumZero(n - 1, f);
      } else {
        SumSingle(n - 1, t, f);
      }
    }
  }

  function AtSecond(f: (int, int) -> real, j: int): int -> real { i => f(i, j) }

  function AtFirst(f: (int, int) -> real, i: int): int -> real { j => f(i, j) }

  /** Double sums may be taken in either order. `rows` and `columns` are the two ways to bracket `f`. */
  lemma {:induction false} SumSwap(m: nat, n: nat, f: (int, int) -> real, rows: int -> real, columns: int -> real)
    requires forall i | 0 <= i < m :: rows(i) == Sum(n, AtFirst(f, i))
    requires forall j | 0 <= j < n :: columns(j) == Sum(m, AtSecond(f, j))
    ensures Sum(m, rows) == Sum(n, columns)
  {
    if m == 0 {
      SumZero(n, columns);
    } else {
      var fewer := j => Sum(m - 1, AtSecond(f, j));
      SumSwap(m - 1, n, f, rows, fewer);
      SumAdd(n, fewer, AtFirst(f, m - 1), columns);
    }
  }
}
