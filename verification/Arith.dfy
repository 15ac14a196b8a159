/** Nonlinear integer facts shared by every flat-index argument, and C's truncating operators. */
module Arith {

  function Max(a: int, b: int): int { if a >= b then a else b }

  function Min(a: int, b: int): int { if a <= b then a else b }

  /** `std::clamp`. */
  function Clamp(v: int, lo: int, hi: int): int { if v < lo then lo else if v > hi then hi else v }

  /** C's truncating quotient; Dafny's own `/` rounds the other way for a negative dividend. */
  function TruncDiv(a: int, b: int): int
    requires b > 0
  {
    if a >= 0 then a / b else -((-a) / b)
  }

  /** C's truncating remainder. */
  function TruncRem(a: int, b: int): int
    requires b > 0
  {
    if a >= 0 then a % b else -((-a) % b)
  }

  lemma MulMono(a: int, b: int, c: int)
    requires a <= b && 0 <= c
    ensures a * c <= b * c
  {
  }

  lemma MulDistrib(a: int, b: int, c: int)
    ensures (a + b) * c == a * c + b * c
    ensures (a - b) * c == a * c - b * c
  {
  }

  /** Row-major positions stay inside the rectangle. */
  lemma RowMajorInRange(row: int, col: int, rows: int, cols: int)
    requires 0 <= row < rows && 0 <= col < cols
    ensures 0 <= row * cols + col < rows * cols
  {
    MulMono(0, row, cols);
    MulMono(row, rows - 1, cols);
    MulDistrib(rows, 1, cols);
  }

  /** Digits in a mixed radix are unique: the base step of every "flat indices do not alias". */
  lemma DigitsUnique(q: int, r: int, q': int, r': int, b: int)
    requires 0 <= r < b && 0 <= r' < b
    requires q * b + r == q' * b + r'
    ensures q == q' && r == r'
  {
    if q < q' {
      MulMono(q + 1, q', b);
      MulDistrib(q, 1, b);
      assert false;
    } else if q' < q {
      MulMono(q' + 1, q, b);
      MulDistrib(q', 1, b);
      assert false;
    }
  }

  lemma RemainderUnique(q: int, r: int, b: int)
    requires 0 <= r < b
    ensures (q * b + r) % b == r && (q * b + r) / b == q
  {
    var n := q * b + r;
    assert n == (n / b) * b + n % b;
    DigitsUnique(q, r, n / b, n % b, b);
  }

  lemma NextRemainder(a: nat, b: nat)
    requires b >= 1
    ensures a % b == b - 1 <==> (a + 1) % b == 0
  {
    var q, r := a / b, a % b;
    assert a == q * b + r;
    if r == b - 1 {
      MulDistrib(q, 1, b);
      RemainderUnique(q + 1, 0, b);
    } else {
      RemainderUnique(q, r + 1, b);
    }
  }

  lemma QuotientBounds(sum: int, div: int, lo: int, hi: int)
    requires div >= 1 && lo * div <= sum <= hi * div
    ensures lo <= sum / div <= hi
  {
    var q := sum / div;
    assert sum == q * div + sum % div;
    if q < lo {
      MulMono(q + 1, lo, div);
      MulDistrib(q, 1, div);
      assert false;
    }
    if q > hi {
      MulMono(hi + 1, q, div);
      MulDistrib(hi, 1, div);
      assert false;
    }
  }

  /** The quotient is the one number whose multiple the dividend has just passed. */
  lemma QuotientIs(n: int, d: int, q: int)
    requires d >= 1 && q * d <= n < (q + 1) * d
    ensures n / d == q
  {
    MulDistrib(q, 1, d);
    RemainderUnique(q, n - q * d, d);
  }

  /** Of `from` equal parts of a line of `to` positions, part `part` is where position `i` starts. */
  predicate StartsIn(i: int, to: int, part: int, from: int) {
    0 <= i < to && 0 <= part < from && part * to <= i * from < (part + 1) * to
  }

  lemma StartsInItself(i: int, n: int)
    requires 0 <= i < n
    ensures StartsIn(i, n, i, n)
  {
    MulDistrib(i, 1, n);
  }

  /** Flat position of row `y`, column `x`. */
  function At(w: int, y: int, x: int): int { y * w + x }

  lemma GridInRange(w: nat, h: nat)
    ensures forall y, x | 0 <= y < h && 0 <= x < w :: 0 <= At(w, y, x) < w * h
  {
    forall y, x | 0 <= y < h && 0 <= x < w
      ensures 0 <= At(w, y, x) < w * h
    {
      RowMajorInRange(y, x, h, w);
    }
  }

  lemma AtInjective(w: nat, h: nat, y: nat, x: nat)
    requires y < h && x < w
    ensures forall y', x' | 0 <= y' < h && 0 <= x' < w && At(w, y', x') == At(w, y, x) :: y' == y && x' == x
  {
    forall y', x' | 0 <= y' < h && 0 <= x' < w && At(w, y', x') == At(w, y, x)
      ensures y' == y && x' == x
    {
      DigitsUnique(y', x', y, x, w);
    }
  }

  lemma RowsApart(w: nat, y': nat, x: nat, y: nat)
    requires y' < y && x < w
    ensures At(w, y', x) < y * w
  {
    MulMono(y' + 1, y, w);
    MulDistrib(y', 1, w);
  }

  lemma GridCovers(w: nat, h: nat, i: int)
    requires 0 <= i < w * h
    ensures w > 0 && 0 <= i / w < h && 0 <= i % w < w && At(w, i / w, i % w) == i
  {
    if w != 0 {
      assert i == (i / w) * w + i % w;
      if i / w >= h {
        MulMono(h, i / w, w);
        assert false;
      }
      if i / w < 0 {
        MulMono(i / w, -1, w);
        assert false;
      }
    }
  }

  /** Nearest-neighbour index arithmetic: scaling a position of `0..to` into `0..from` stays inside. */
  lemma ScaledIndexInRange(i: int, from: int, to: int)
    requires 0 <= i < to && 0 < from
    ensures 0 <= i * from / to < from
  {
    MulMono(0, i, from);
    MulMono(i, to - 1, from);
    MulDistrib(to, 1, from);
    var n := i * from;
    assert n == (n / to) * to + n % to;
    if n / to >= from {
      MulMono(from, n / to, to);
      assert false;
    }
    if n / to < 0 {
      MulMono(n / to, -1, to);
      assert false;
    }
  }
}
