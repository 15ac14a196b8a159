/** Row-major images given by a function of row and column, and the double loop that fills one. */
module Raster {
  import opened Arith

  function Draw<T>(w: nat, h: nat, f: (int, int) -> T): (image: seq<T>)
    ensures |image| == w * h
  {
    seq(w * h, i requires 0 <= i < w * h => GridCovers(w, h, i); f(i / w, i % w))
  }

  lemma DrawAt<T>(w: nat, h: nat, f: (int, int) -> T, y: int, x: int)
    requires 0 <= y < h && 0 <= x < w
    ensures 0 <= At(w, y, x) < w * h && Draw(w, h, f)[At(w, y, x)] == f(y, x)
  {
    RowMajorInRange(y, x, h, w);
    RemainderUnique(y, x, w);
  }

  /** Cells of the raster before (y, x) in row-major order hold `f`. */
  ghost predicate FilledTo<T>(image: seq<T>, w: nat, h: nat, f: (int, int) -> T, y: int, x: int) {
    && |image| == w * h
    && forall y', x' | 0 <= y' < h && 0 <= x' < w && (y' < y || (y' == y && x' < x)) ::
         0 <= At(w, y', x') < w * h && image[At(w, y', x')] == f(y', x')
  }

  lemma FillNext<T>(before: seq<T>, after: seq<T>, w: nat, h: nat, f: (int, int) -> T, y: nat, x: nat)
    requires y < h && x < w && FilledTo(before, w, h, f, y, x)
    requires 0 <= At(w, y, x) < w * h && after == before[At(w, y, x) := f(y, x)]
    ensures FilledTo(after, w, h, f, y, x + 1)
  {
    AtInjective(w, h, y, x);
    GridInRange(w, h);
  }

  lemma FillRowDone<T>(image: seq<T>, w: nat, h: nat, f: (int, int) -> T, y: nat)
    requires FilledTo(image, w, h, f, y, w)
    ensures FilledTo(image, w, h, f, y + 1, 0)
  {
  }

  lemma FilledIsDrawn<T>(image: seq<T>, w: nat, h: nat, f: (int, int) -> T)
    requires FilledTo(image, w, h, f, h, 0)
    ensures image == Draw(w, h, f)
  {
    forall i | 0 <= i < w * h
      ensures image[i] == Draw(w, h, f)[i]
    {
      GridCovers(w, h, i);
      assert image[At(w, i / w, i % w)] == f(i / w, i % w);
    }
  }
}
