/**
 With zero bias the operator is the adjoint of the strided, padded convolution with the same weights:
 pairing its output with any `g` equals pairing its input with the convolution of `g`.
 */
module Adjoint {
  import opened Sums
  import opened TransposeConv

  type Plane = (int, int, int) -> real
  type Tensor = (int, int, int, int) -> real

  // ----- Pairing an output plane with `g` -----

  function PairOc(k: Conv, g: Tensor, b: int, image: Plane, y: int, x: int): int -> real {
    oc => g(b, y, x, oc) * image(y, x, oc)
  }

  function PairX(k: Conv, g: Tensor, b: int, image: Plane, y: int): int -> real {
    x => Sum(k.outC, PairOc(k, g, b, image, y, x))
  }

  function PairY(k: Conv, g: Tensor, b: int, image: Plane): int -> real {
    y => Sum(k.outW, PairX(k, g, b, image, y))
  }

  /** Inner product of one output plane with the same plane of `g`. */
  function Pairing(k: Conv, g: Tensor, b: int, image: Plane): real {
    Sum(k.outH, PairY(k, g, b, image))
  }

  lemma PairingAdd(k: Conv, g: Tensor, b: int, first: Plane, second: Plane, both: Plane)
    requires SumImage(k, first, second, both)
    ensures Pairing(k, g, b, both) == Pairing(k, g, b, first) + Pairing(k, g, b, second)
  {
    forall y | 0 <= y < k.outH
      ensures PairY(k, g, b, both)(y) == PairY(k, g, b, first)(y) + PairY(k, g, b, second)(y)
    {
      forall x | 0 <= x < k.outW
        ensures PairX(k, g, b, both, y)(x) == PairX(k, g, b, first, y)(x) + PairX(k, g, b, second, y)(x)
      {
        forall oc | 0 <= oc < k.outC
          ensures PairOc(k, g, b, both, y, x)(oc) ==
              PairOc(k, g, b, first, y, x)(oc) + PairOc(k, g, b, second, y, x)(oc)
        {
          assert InBox(y, x, oc, k.outH, k.outW, k.outC);
          Distribute(g(b, y, x, oc), first(y, x, oc), second(y, x, oc));
        }
        SumAdd(k.outC, PairOc(k, g, b, first, y, x), PairOc(k, g, b, second, y, x), PairOc(k, g, b, both, y, x));
      }
      SumAdd(k.outW, PairX(k, g, b, first, y), PairX(k, g, b, second, y), PairX(k, g, b, both, y));
    }
    SumAdd(k.outH, PairY(k, g, b, first), PairY(k, g, b, second), PairY(k, g, b, both));
  }

  lemma Distribute(a: real, p: real, q: real)
    ensures a * (p + q) == a * p + a * q
  {
  }

  lemma PairingZero(k: Conv, g: Tensor, b: int, image: Plane)
    requires ZeroImage(k, image)
    ensures Pairing(k, g, b, image) == 0.0
  {
    PairingAdd(k, g, b, image, image, image);
  }

  function PartsAt(parts: int -> Plane, y: int, x: int, oc: int): int -> real {
    i => parts(i)(y, x, oc)
  }

  function PartSum(parts: int -> Plane, n: nat): Plane {
    (y, x, oc) => Sum(n, PartsAt(parts, y, x, oc))
  }

  ghost predicate SameImage(k: Conv, first: Plane, second: Plane) {
    forall y, x, oc | InBox(y, x, oc, k.outH, k.outW, k.outC) :: first(y, x, oc) == second(y, x, oc)
  }

  lemma PairingSame(k: Conv, g: Tensor, b: int, first: Plane, second: Plane)
    requires SameImage(k, first, second)
    ensures Pairing(k, g, b, first) == Pairing(k, g, b, second)
  {
    var none: Plane := (y, x, oc) => 0.0;
    PairingZero(k, g, b, none);
    PairingAdd(k, g, b, first, none, second);
  }

  lemma {:induction false} PairingPartSum(k: Conv, g: Tensor, b: int, n: nat, parts: int -> Plane,
        pairings: int -> real)
    requires forall i | 0 <= i < n :: pairings(i) == Pairing(k, g, b, parts(i))
    ensures Pairing(k, g, b, PartSum(parts, n)) == Sum(n, pairings)
  {
    if n == 0 {
      PairingZero(k, g, b, PartSum(parts, 0));
    } else {
      PairingPartSum(k, g, b, n - 1, parts, pairings);
      PairingAdd(k, g, b, PartSum(parts, n - 1), parts(n - 1), PartSum(parts, n));
    }
  }

  /** Pairing is linear in the plane: a plane that is a sum of planes pairs to the sum of pairings. */
  lemma PairingSum(k: Conv, g: Tensor, b: int, n: nat, parts: int -> Plane, total: Plane, pairings: int -> real)
    requires SameImage(k, PartSum(parts, n), total)
    requires forall i | 0 <= i < n :: pairings(i) == Pairing(k, g, b, parts(i))
    ensures Pairing(k, g, b, total) == Sum(n, pairings)
  {
    PairingPartSum(k, g, b, n, parts, pairings);
    PairingSame(k, g, b, PartSum(parts, n), total);
  }

  // ----- The convolution of `g` -----

  function TapOc(k: Conv, g: Tensor, b: int, y: int, x: int, fy: int, fx: int, ic: int): int -> real {
    oc => g(b, y, x, oc) * k.W(oc, fy, fx, ic)
  }

  /** One filter position of the convolution: `g` read at the strided, padded target, zero outside. */
  function Tap(k: Conv, g: Tensor, b: int, iy: int, ix: int, fy: int, fx: int, ic: int): real {
    var y, x := k.TargetY(iy, fy), k.TargetX(ix, fx);
    if 0 <= y < k.outH && 0 <= x < k.outW then Sum(k.outC, TapOc(k, g, b, y, x, fy, fx, ic)) else 0.0
  }

  function TapFx(k: Conv, g: Tensor, b: int, iy: int, ix: int, fy: int, ic: int): int -> real {
    fx => Tap(k, g, b, iy, ix, fy, fx, ic)
  }

  function TapFy(k: Conv, g: Tensor, b: int, iy: int, ix: int, ic: int): int -> real {
    fy => Sum(k.fW, TapFx(k, g, b, iy, ix, fy, ic))
  }

  /** The strided, padded convolution of `g` with the same weights, at one input position. */
  function Convolved(k: Conv, g: Tensor, b: int, iy: int, ix: int, ic: int): real {
    Sum(k.fH, TapFy(k, g, b, iy, ix, ic))
  }

  // ----- One plane: pairing the operator's output, one scatter index at a time -----

  function TermImage(k: Conv, b: int, iy: int, ix: int, fy: int, fx: int): int -> Plane {
    ic => (y, x, oc) => k.Term(b, iy, ix, fy, fx, ic, y, x, oc)
  }

  function ByIc(k: Conv, g: Tensor, b: int, iy: int, ix: int, fy: int, fx: int): int -> real {
    ic => k.X(b, iy, ix, ic) * Tap(k, g, b, iy, ix, fy, fx, ic)
  }

  function ByFx(k: Conv, g: Tensor, b: int, iy: int, ix: int, fy: int): int -> real {
    fx => Sum(k.inC, ByIc(k, g, b, iy, ix, fy, fx))
  }

  function ByFy(k: Conv, g: Tensor, b: int, iy: int, ix: int): int -> real {
    fy => Sum(k.fW, ByFx(k, g, b, iy, ix, fy))
  }

  function ByIx(k: Conv, g: Tensor, b: int, iy: int): int -> real {
    ix => Sum(k.fH, ByFy(k, g, b, iy, ix))
  }

  function ByIy(k: Conv, g: Tensor, b: int): int -> real {
    iy => Sum(k.inW, ByIx(k, g, b, iy))
  }

  /** Pairing a plane that is zero away from one pixel reads `g` at that pixel only. */
  lemma PairOnePixel(k: Conv, g: Tensor, b: int, image: Plane, ty: int, tx: int)
    requires forall y, x, oc | y != ty || x != tx :: image(y, x, oc) == 0.0
    ensures Pairing(k, g, b, image)
            == if 0 <= ty < k.outH && 0 <= tx < k.outW then Sum(k.outC, PairOc(k, g, b, image, ty, tx)) else 0.0
  {
    forall y, x | y != ty || x != tx
      ensures PairX(k, g, b, image, y)(x) == 0.0
    {
      SumZero(k.outC, PairOc(k, g, b, image, y, x));
    }
    forall y | y != ty
      ensures PairY(k, g, b, image)(y) == 0.0
    {
      SumZero(k.outW, PairX(k, g, b, image, y));
    }
    SumSingle(k.outH, ty, PairY(k, g, b, image));
    SumSingle(k.outW, tx, PairX(k, g, b, image, ty));
  }

  lemma Rotate(a: real, p: real, q: real)
    ensures p * (a * q) == a * (p * q)
  {
  }

  lemma PairTerm(k: Conv, g: Tensor, b: int, iy: int, ix: int, fy: int, fx: int, ic: int)
    ensures Pairing(k, g, b, TermImage(k, b, iy, ix, fy, fx)(ic)) ==
        k.X(b, iy, ix, ic) * Tap(k, g, b, iy, ix, fy, fx, ic)
  {
    var image := TermImage(k, b, iy, ix, fy, fx)(ic);
    var y, x := k.TargetY(iy, fy), k.TargetX(ix, fx);
    PairOnePixel(k, g, b, image, y, x);
    var value := k.X(b, iy, ix, ic);
    forall oc | 0 <= oc < k.outC
      ensures PairOc(k, g, b, image, y, x)(oc) == value * TapOc(k, g, b, y, x, fy, fx, ic)(oc)
    {
      Rotate(value, g(b, y, x, oc), k.W(oc, fy, fx, ic));
    }
    SumScale(k.outC, value, TapOc(k, g, b, y, x, fy, fx, ic), PairOc(k, g, b, image, y, x));
  }

  lemma PairUpToIc(k: Conv, g: Tensor, b: int, iy: int, ix: int, fy: int, fx: int)
    ensures Pairing(k, g, b, k.UpToIc(b, iy, ix, fy, fx, k.inC)) == ByFx(k, g, b, iy, ix, fy)(fx)
  {
    var parts := TermImage(k, b, iy, ix, fy, fx);
    forall y, x, oc
      ensures PartSum(parts, k.inC)(y, x, oc) == k.UpToIc(b, iy, ix, fy, fx, k.inC)(y, x, oc)
    {
      SumCongruence(k.inC, k.PerChannel(b, iy, ix, fy, fx, y, x, oc), PartsAt(parts, y, x, oc));
    }
    forall ic ensures ByIc(k, g, b, iy, ix, fy, fx)(ic) == Pairing(k, g, b, parts(ic)) {
      PairTerm(k, g, b, iy, ix, fy, fx, ic);
    }
    PairingSum(k, g, b, k.inC, parts, k.UpToIc(b, iy, ix, fy, fx, k.inC), ByIc(k, g, b, iy, ix, fy, fx));
  }

  lemma PairUpToFx(k: Conv, g: Tensor, b: int, iy: int, ix: int, fy: int)
    ensures Pairing(k, g, b, k.UpToFx(b, iy, ix, fy, k.fW)) == ByFy(k, g, b, iy, ix)(fy)
  {
    var parts := fx => k.UpToIc(b, iy, ix, fy, fx, k.inC);
    forall y, x, oc
      ensures PartSum(parts, k.fW)(y, x, oc) == k.UpToFx(b, iy, ix, fy, k.fW)(y, x, oc)
    {
      SumCongruence(k.fW, k.PerFx(b, iy, ix, fy, y, x, oc), PartsAt(parts, y, x, oc));
    }
    forall fx ensures ByFx(k, g, b, iy, ix, fy)(fx) == Pairing(k, g, b, parts(fx)) {
      PairUpToIc(k, g, b, iy, ix, fy, fx);
    }
    PairingSum(k, g, b, k.fW, parts, k.UpToFx(b, iy, ix, fy, k.fW), ByFx(k, g, b, iy, ix, fy));
  }

  lemma PairUpToFy(k: Conv, g: Tensor, b: int, iy: int, ix: int)
    ensures Pairing(k, g, b, k.UpToFy(b, iy, ix, k.fH)) == ByIx(k, g, b, iy)(ix)
  {
    var parts := fy => k.UpToFx(b, iy, ix, fy, k.fW);
    forall y, x, oc
      ensures PartSum(parts, k.fH)(y, x, oc) == k.UpToFy(b, iy, ix, k.fH)(y, x, oc)
    {
      SumCongruence(k.fH, k.PerFy(b, iy, ix, y, x, oc), PartsAt(parts, y, x, oc));
    }
    forall fy ensures ByFy(k, g, b, iy, ix)(fy) == Pairing(k, g, b, parts(fy)) {
      PairUpToFx(k, g, b, iy, ix, fy);
    }
    PairingSum(k, g, b, k.fH, parts, k.UpToFy(b, iy, ix, k.fH), ByFy(k, g, b, iy, ix));
  }

  lemma PairUpToIx(k: Conv, g: Tensor, b: int, iy: int)
    ensures Pairing(k, g, b, k.UpToIx(b, iy, k.inW)) == ByIy(k, g, b)(iy)
  {
    var parts := ix => k.UpToFy(b, iy, ix, k.fH);
    forall y, x, oc
      ensures PartSum(parts, k.inW)(y, x, oc) == k.UpToIx(b, iy, k.inW)(y, x, oc)
    {
      SumCongruence(k.inW, k.PerIx(b, iy, y, x, oc), PartsAt(parts, y, x, oc));
    }
    forall ix ensures ByIx(k, g, b, iy)(ix) == Pairing(k, g, b, parts(ix)) {
      PairUpToFy(k, g, b, iy, ix);
    }
    PairingSum(k, g, b, k.inW, parts, k.UpToIx(b, iy, k.inW), ByIx(k, g, b, iy));
  }

  lemma PairUpToIy(k: Conv, g: Tensor, b: int)
    ensures Pairing(k, g, b, k.UpToIy(b, k.inH)) == Sum(k.inH, ByIy(k, g, b))
  {
    var parts := iy => k.UpToIx(b, iy, k.inW);
    forall y, x, oc
      ensures PartSum(parts, k.inH)(y, x, oc) == k.UpToIy(b, k.inH)(y, x, oc)
    {
      SumCongruence(k.inH, k.PerIy(b, y, x, oc), PartsAt(parts, y, x, oc));
    }
    forall iy ensures ByIy(k, g, b)(iy) == Pairing(k, g, b, parts(iy)) {
      PairUpToIx(k, g, b, iy);
    }
    PairingSum(k, g, b, k.inH, parts, k.UpToIy(b, k.inH), ByIy(k, g, b));
  }

  // ----- Regrouping: the filter sums move inside the channel sum -----

  function InputIc(k: Conv, g: Tensor, b: int, iy: int, ix: int): int -> real {
    ic => k.X(b, iy, ix, ic) * Convolved(k, g, b, iy, ix, ic)
  }

  function InputIx(k: Conv, g: Tensor, b: int, iy: int): int -> real {
    ix => Sum(k.inC, InputIc(k, g, b, iy, ix))
  }

  function InputIy(k: Conv, g: Tensor, b: int): int -> real {
    iy => Sum(k.inW, InputIx(k, g, b, iy))
  }

  // The products over (fx, ic) for one filter row, and over (fy, ic) for the whole filter.

  function RowProducts(k: Conv, g: Tensor, b: int, iy: int, ix: int, fy: int): (int, int) -> real {
    (fx, ic) => k.X(b, iy, ix, ic) * Tap(k, g, b, iy, ix, fy, fx, ic)
  }

  function Products(k: Conv, g: Tensor, b: int, iy: int, ix: int): (int, int) -> real {
    (fy, ic) => k.X(b, iy, ix, ic) * Sum(k.fW, TapFx(k, g, b, iy, ix, fy, ic))
  }

  lemma RegroupRow(k: Conv, g: Tensor, b: int, iy: int, ix: int, fy: int)
    ensures ByFy(k, g, b, iy, ix)(fy) == Sum(k.inC, AtFirst(Products(k, g, b, iy, ix), fy))
  {
    var f := RowProducts(k, g, b, iy, ix, fy);
    forall fx ensures ByFx(k, g, b, iy, ix, fy)(fx) == Sum(k.inC, AtFirst(f, fx)) {
      SumCongruence(k.inC, ByIc(k, g, b, iy, ix, fy, fx), AtFirst(f, fx));
    }
    forall ic ensures AtFirst(Products(k, g, b, iy, ix), fy)(ic) == Sum(k.fW, AtSecond(f, ic)) {
      SumScale(k.fW, k.X(b, iy, ix, ic), TapFx(k, g, b, iy, ix, fy, ic), AtSecond(f, ic));
    }
    SumSwap(k.fW, k.inC, f, ByFx(k, g, b, iy, ix, fy), AtFirst(Products(k, g, b, iy, ix), fy));
  }

  lemma RegroupPixel(k: Conv, g: Tensor, b: int, iy: int, ix: int)
    ensures Sum(k.fH, ByFy(k, g, b, iy, ix)) == Sum(k.inC, InputIc(k, g, b, iy, ix))
  {
    var f := Products(k, g, b, iy, ix);
    forall fy ensures ByFy(k, g, b, iy, ix)(fy) == Sum(k.inC, AtFirst(f, fy)) {
      RegroupRow(k, g, b, iy, ix, fy);
    }
    forall ic ensures InputIc(k, g, b, iy, ix)(ic) == Sum(k.fH, AtSecond(f, ic)) {
      SumScale(k.fH, k.X(b, iy, ix, ic), TapFy(k, g, b, iy, ix, ic), AtSecond(f, ic));
    }
    SumSwap(k.fH, k.inC, f, ByFy(k, g, b, iy, ix), InputIc(k, g, b, iy, ix));
  }

  function OutputSide(k: Conv, g: Tensor): int -> real {
    b => Pairing(k, g, b, (y, x, oc) => k.Gathered(b, y, x, oc))
  }

  function InputSide(k: Conv, g: Tensor): int -> real {
    b => Sum(k.inH, InputIy(k, g, b))
  }

  /** The adjoint law, for every shape, stride, padding, input, filter and `g`. */
  lemma OperatorIsAdjoint(k: Conv, g: Tensor)
    ensures Sum(k.batches, OutputSide(k, g)) == Sum(k.batches, InputSide(k, g))
  {
    forall b | 0 <= b < k.batches
      ensures OutputSide(k, g)(b) == InputSide(k, g)(b)
    {
      var image := (y, x, oc) => k.Gathered(b, y, x, oc);
      var none: Plane := (y, x, oc) => 0.0;
      PairingZero(k, g, b, none);
      PairingAdd(k, g, b, k.UpToIy(b, k.inH), none, image);
      PairUpToIy(k, g, b);
      forall iy | 0 <= iy < k.inH
        ensures ByIy(k, g, b)(iy) == InputIy(k, g, b)(iy)
      {
        forall ix | 0 <= ix < k.inW
          ensures ByIx(k, g, b, iy)(ix) == InputIx(k, g, b, iy)(ix)
        {
          RegroupPixel(k, g, b, iy, ix);
        }
        SumCongruence(k.inW, ByIx(k, g, b, iy), InputIx(k, g, b, iy));
      }
      SumCongruence(k.inH, ByIy(k, g, b), InputIy(k, g, b));
    }
    SumCongruence(k.batches, OutputSide(k, g), InputSide(k, g));
  }

  /** The inner product of what a buffer holds with `g`. */
  function BufferSide(k: Conv, g: Tensor, out: seq<real>): int -> real {
    b => Pairing(k, g, b, CellValues(k, out, b))
  }

  function CellValues(k: Conv, out: seq<real>, b: int): Plane {
    (y, x, oc) => if 0 <= k.Cell(b, y, x, oc) < |out| then out[k.Cell(b, y, x, oc)] else 0.0
  }

  /** The law for the buffer itself: with zero bias, whatever `Invoke` leaves behind pairs like the input. */
  lemma BufferIsAdjoint(k: Conv, g: Tensor, out: seq<real>)
    requires |out| == k.batches * (k.outH * k.outW * k.outC)
    requires forall oc | 0 <= oc < k.outC :: k.Bias(oc) == 0.0
    requires forall b, y, x, oc | k.IsCell(b, y, x, oc) ::
               CellInRange(k, b, y, x, oc) && out[k.Cell(b, y, x, oc)] == k.Bias(oc) + k.Gathered(b, y, x, oc)
    ensures Sum(k.batches, BufferSide(k, g, out)) == Sum(k.batches, InputSide(k, g))
  {
    forall b | 0 <= b < k.batches
      ensures BufferSide(k, g, out)(b) == OutputSide(k, g)(b)
    {
      var gathered: Plane := (y, x, oc) => k.Gathered(b, y, x, oc);
      forall y, x, oc | InBox(y, x, oc, k.outH, k.outW, k.outC)
        ensures CellValues(k, out, b)(y, x, oc) == gathered(y, x, oc)
      {
        assert k.IsCell(b, y, x, oc);
      }
      PairingSame(k, g, b, CellValues(k, out, b), gathered);
    }
    SumCongruence(k.batches, BufferSide(k, g, out), OutputSide(k, g));
    OperatorIsAdjoint(k, g);
  }
}
