/**
 `ErodeMask`: a separable minimum filter over the segmentation mask, in place through a scratch
 buffer. Its meaning is the minimum over the in-bounds part of a square around each pixel.
 */
module Erosion {
  import opened Arith
  import opened Pixels
  import opened Raster

  // ----- Minimum over one edge-clamped line -----

  function MinWindow(line: int -> Byte, n: int, from: int, count: nat): Byte {
    if count == 0 then 0xFF
    else
      var m, v := MinWindow(line, n, from, count - 1), line(Clamp(from + count - 1, 0, n - 1));
      if m <= v then m else v
  }

  /** The clamped window reads exactly the in-bounds positions it covers, and its minimum is attained. */
  lemma {:induction false} MinWindowMeaning(line: int -> Byte, n: int, i: int, r: nat, count: nat)
    requires 0 <= i < n && count <= 2 * r + 1
    ensures forall j | 0 <= j < n && i - r <= j < i - r + count :: MinWindow(line, n, i - r, count) <= line(j)
    ensures 0 < count ==> exists j | 0 <= j < n && i - r <= j <= i + r :: line(j) == MinWindow(line, n, i - r, count)
  {
    if count != 0 {
      MinWindowMeaning(line, n, i, r, count - 1);
      var j := Clamp(i - r + count - 1, 0, n - 1);
      assert 0 <= j < n && i - r <= j <= i + r;
      if count == 1 || line(j) < MinWindow(line, n, i - r, count - 1) {
        assert line(j) == MinWindow(line, n, i - r, count);
      }
    }
  }

  // ----- What erosion means -----

  /** A mask seen as a grid: its value at row `y`, column `x`. */
  type Grid = (int, int) -> Byte

  function GridRow(f: Grid, y: int): int -> Byte { x => f(y, x) }

  function GridColumn(f: Grid, x: int): int -> Byte { y => f(y, x) }

  function AsGrid(mask: seq<Byte>, w: int): Grid {
    (y, x) => if 0 <= At(w, y, x) < |mask| then mask[At(w, y, x)] else 0xFF
  }

  predicate Inside(w: int, h: int, y: int, x: int) {
    0 <= y < h && 0 <= x < w
  }

  predicate Near(y: int, x: int, y': int, x': int, r: int) {
    y - r <= y' <= y + r && x - r <= x' <= x + r
  }

  /** `v` is the minimum of `f` over the in-bounds part of the `(2r+1)`-square around (y, x). */
  ghost predicate IsSquareMin(f: Grid, w: int, h: int, r: int, y: int, x: int, v: Byte) {
    && (forall y', x' {:trigger f(y', x')} | Inside(w, h, y', x') && Near(y, x, y', x', r) :: v <= f(y', x'))
    && exists y', x' {:trigger f(y', x')} | Inside(w, h, y', x') && Near(y, x, y', x', r) :: v == f(y', x')
  }

  ghost predicate IsErosion(f: Grid, g: Grid, w: int, h: int, r: int) {
    forall y, x {:trigger g(y, x)} | Inside(w, h, y, x) :: IsSquareMin(f, w, h, r, y, x, g(y, x))
  }

  /** `rows` holds the row minima of `f`; likewise for columns. */
  ghost predicate IsRowPass(f: Grid, rows: Grid, w: int, h: int, r: nat) {
    forall y, x | Inside(w, h, y, x) :: rows(y, x) == MinWindow(GridRow(f, y), w, x - r, 2 * r + 1)
  }

  ghost predicate IsColumnPass(f: Grid, columns: Grid, w: int, h: int, r: nat) {
    forall y, x | Inside(w, h, y, x) :: columns(y, x) == MinWindow(GridColumn(f, x), h, y - r, 2 * r + 1)
  }

  lemma TwoPassLowerBound(f: Grid, rows: Grid, w: nat, h: nat, r: nat, y: int, x: int, y': int, x': int)
    requires Inside(w, h, y, x) && Inside(w, h, y', x') && Near(y, x, y', x', r)
    requires IsRowPass(f, rows, w, h, r)
    ensures MinWindow(GridColumn(rows, x), h, y - r, 2 * r + 1) <= f(y', x')
  {
    MinWindowMeaning(GridColumn(rows, x), h, y, r, 2 * r + 1);
    MinWindowMeaning(GridRow(f, y'), w, x, r, 2 * r + 1);
    assert GridColumn(rows, x)(y') == rows(y', x);
    assert GridRow(f, y')(x') == f(y', x');
    assert Inside(w, h, y', x);
  }

  lemma TwoPassAttained(f: Grid, rows: Grid, w: nat, h: nat, r: nat, y: int, x: int)
    requires Inside(w, h, y, x) && IsRowPass(f, rows, w, h, r)
    ensures exists y', x' {:trigger f(y', x')} | Inside(w, h, y', x') && Near(y, x, y', x', r) ::
              MinWindow(GridColumn(rows, x), h, y - r, 2 * r + 1) == f(y', x')
  {
    MinWindowMeaning(GridColumn(rows, x), h, y, r, 2 * r + 1);
    var v := MinWindow(GridColumn(rows, x), h, y - r, 2 * r + 1);
    var y' :| 0 <= y' < h && y - r <= y' <= y + r && GridColumn(rows, x)(y') == v;
    assert Inside(w, h, y', x);
    MinWindowMeaning(GridRow(f, y'), w, x, r, 2 * r + 1);
    var x' :| 0 <= x' < w && x - r <= x' <= x + r && GridRow(f, y')(x') == rows(y', x);
    assert Inside(w, h, y', x') && Near(y, x, y', x', r) && f(y', x') == v;
  }

  /** Row minima followed by column minima are square minima. */
  lemma TwoPassesErode(f: Grid, rows: Grid, g: Grid, w: nat, h: nat, r: nat)
    requires IsRowPass(f, rows, w, h, r) && IsColumnPass(rows, g, w, h, r)
    ensures IsErosion(f, g, w, h, r)
  {
    forall y, x | Inside(w, h, y, x)
      ensures IsSquareMin(f, w, h, r, y, x, g(y, x))
    {
      forall y', x' | Inside(w, h, y', x') && Near(y, x, y', x', r)
        ensures g(y, x) <= f(y', x')
      {
        TwoPassLowerBound(f, rows, w, h, r, y, x, y', x');
      }
      TwoPassAttained(f, rows, w, h, r, y, x);
    }
  }

  lemma ComposedLowerBound(f: Grid, g: Grid, w: nat, h: nat, r: nat, s: nat, y: int, x: int, y': int, x': int, v: Byte)
    requires Inside(w, h, y, x) && Inside(w, h, y', x') && Near(y, x, y', x', r + s)
    requires IsErosion(f, g, w, h, r) && IsSquareMin(g, w, h, s, y, x, v)
    ensures v <= f(y', x')
  {
    // A point within s of the centre and within r of the target, still inside the mask.
    var my, mx := Clamp(y', y - s, y + s), Clamp(x', x - s, x + s);
    assert Inside(w, h, my, mx) && Near(y, x, my, mx, s) && Near(my, mx, y', x', r);
    assert IsSquareMin(f, w, h, r, my, mx, g(my, mx));
  }

  lemma ComposedAttained(f: Grid, g: Grid, w: nat, h: nat, r: nat, s: nat, y: int, x: int, v: Byte)
    requires IsErosion(f, g, w, h, r) && IsSquareMin(g, w, h, s, y, x, v)
    ensures exists y', x' | Inside(w, h, y', x') && Near(y, x, y', x', r + s) :: v == f(y', x')
  {
    var my, mx :| Inside(w, h, my, mx) && Near(y, x, my, mx, s) && v == g(my, mx);
    assert IsSquareMin(f, w, h, r, my, mx, v);
    var y', x' :| Inside(w, h, y', x') && Near(my, mx, y', x', r) && v == f(y', x');
    assert Near(y, x, y', x', r + s);
  }

  /** Eroding by `r` and then by `s` is eroding by `r + s`, on masks of any size. */
  lemma ErosionsCompose(f: Grid, g: Grid, k: Grid, w: nat, h: nat, r: nat, s: nat)
    requires IsErosion(f, g, w, h, r) && IsErosion(g, k, w, h, s)
    ensures IsErosion(f, k, w, h, r + s)
  {
    forall y, x | Inside(w, h, y, x)
      ensures IsSquareMin(f, w, h, r + s, y, x, k(y, x))
    {
      forall y', x' | Inside(w, h, y', x') && Near(y, x, y', x', r + s)
        ensures k(y, x) <= f(y', x')
      {
        ComposedLowerBound(f, g, w, h, r, s, y, x, y', x', k(y, x));
      }
      ComposedAttained(f, g, w, h, r, s, y, x, k(y, x));
    }
  }

  /** A mask has one erosion of a given radius. */
  lemma ErosionUnique(before: Grid, first: seq<Byte>, second: seq<Byte>, w: nat, h: nat, r: nat)
    requires |first| == |second| == w * h
    requires IsErosion(before, AsGrid(first, w), w, h, r) && IsErosion(before, AsGrid(second, w), w, h, r)
    ensures first == second
  {
    forall y, x | Inside(w, h, y, x)
      ensures AsGrid(first, w)(y, x) == AsGrid(second, w)(y, x)
    {
      MinUnique(before, w, h, r, y, x, AsGrid(first, w)(y, x), AsGrid(second, w)(y, x));
    }
    SameGridSameMask(first, second, w, h);
  }

  lemma SameGridSameMask(first: seq<Byte>, second: seq<Byte>, w: nat, h: nat)
    requires |first| == |second| == w * h
    requires forall y, x | Inside(w, h, y, x) :: AsGrid(first, w)(y, x) == AsGrid(second, w)(y, x)
    ensures first == second
  {
    forall i | 0 <= i < w * h
      ensures first[i] == second[i]
    {
      GridCovers(w, h, i);
      assert AsGrid(first, w)(i / w, i % w) == AsGrid(second, w)(i / w, i % w);
    }
  }

  lemma MinUnique(f: Grid, w: int, h: int, r: int, y: int, x: int, u: Byte, v: Byte)
    requires IsSquareMin(f, w, h, r, y, x, u) && IsSquareMin(f, w, h, r, y, x, v)
    ensures u == v
  {
  }

  // ----- The loops -----

  /** C's truncation of a real to an integer. */
  function Trunc(v: real): int { if v >= 0.0 then v.Floor else -((-v).Floor) }

  /** The window minimum at one position: the loop over `k` from `-r` to `r`. */
  method RowMinimum(mask: array<Byte>, w: nat, h: nat, y: nat, x: nat, r: nat) returns (m: Byte)
    requires mask.Length == w * h && y < h && x < w
    ensures m == MinWindow(GridRow(AsGrid(mask[..], w), y), w, x - r, 2 * r + 1)
  {
    ghost var line := GridRow(AsGrid(mask[..], w), y);
    GridInRange(w, h);
    m := 0xFF;
    for j := 0 to 2 * r + 1
      invariant m == MinWindow(line, w, x - r, j)
    {
      var k := j - r;
      var column := Clamp(x + k, 0, w - 1);
      assert 0 <= At(w, y, column) < w * h;
      var v := mask[At(w, y, column)];
      assert v == line(column);
      if v < m { m := v; }
    }
  }

  method ColumnMinimum(rows: array<Byte>, w: nat, h: nat, y: nat, x: nat, r: nat) returns (m: Byte)
    requires rows.Length == w * h && y < h && x < w
    ensures m == MinWindow(GridColumn(AsGrid(rows[..], w), x), h, y - r, 2 * r + 1)
  {
    ghost var line := GridColumn(AsGrid(rows[..], w), x);
    GridInRange(w, h);
    m := 0xFF;
    for j := 0 to 2 * r + 1
      invariant m == MinWindow(line, h, y - r, j)
    {
      var k := j - r;
      var row := Clamp(y + k, 0, h - 1);
      assert 0 <= At(w, row, x) < w * h;
      var v := rows[At(w, row, x)];
      assert v == line(row);
      if v < m { m := v; }
    }
  }

  /** Storing one cell changes that cell of the grid and no other. */
  lemma StoreCell(before: seq<Byte>, after: seq<Byte>, w: nat, h: nat, y: nat, x: nat, v: Byte)
    requires |before| == w * h && y < h && x < w
    requires 0 <= At(w, y, x) < w * h && after == before[At(w, y, x) := v]
    ensures AsGrid(after, w)(y, x) == v
    ensures forall y', x' | Inside(w, h, y', x') && (y' != y || x' != x) ::
        AsGrid(after, w)(y', x') == AsGrid(before, w)(y', x')
  {
    AtInjective(w, h, y, x);
  }

  /** First pass: row minima into the scratch buffer. */
  method MinimumOfRows(mask: array<Byte>, pass1: array<Byte>, w: nat, h: nat, r: nat)
    requires mask.Length == pass1.Length == w * h && mask != pass1
    modifies pass1
    ensures IsRowPass(AsGrid(mask[..], w), AsGrid(pass1[..], w), w, h, r)
  {
    ghost var f := AsGrid(mask[..], w);
    GridInRange(w, h);
    for y := 0 to h
      invariant forall y', x | Inside(w, h, y', x) && y' < y ::
                  AsGrid(pass1[..], w)(y', x) == MinWindow(GridRow(f, y'), w, x - r, 2 * r + 1)
    {
      for x := 0 to w
        invariant forall y', x' | Inside(w, h, y', x') && (y' < y || (y' == y && x' < x)) ::
                    AsGrid(pass1[..], w)(y', x') == MinWindow(GridRow(f, y'), w, x' - r, 2 * r + 1)
      {
        var m := RowMinimum(mask, w, h, y, x, r);
        assert 0 <= At(w, y, x) < w * h;
        ghost var earlier := pass1[..];
        pass1[At(w, y, x)] := m;
        StoreCell(earlier, pass1[..], w, h, y, x, m);
      }
    }
  }

  /** Second pass: column minima of the scratch buffer back into the mask. */
  method MinimumOfColumns(pass1: array<Byte>, mask: array<Byte>, w: nat, h: nat, r: nat)
    requires mask.Length == pass1.Length == w * h && mask != pass1
    modifies mask
    ensures IsColumnPass(AsGrid(pass1[..], w), AsGrid(mask[..], w), w, h, r)
  {
    ghost var f := AsGrid(pass1[..], w);
    GridInRange(w, h);
    for x := 0 to w
      invariant forall y, x' | Inside(w, h, y, x') && x' < x ::
                  AsGrid(mask[..], w)(y, x') == MinWindow(GridColumn(f, x'), h, y - r, 2 * r + 1)
    {
      for y := 0 to h
        invariant forall y', x' | Inside(w, h, y', x') && (x' < x || (x' == x && y' < y)) ::
                    AsGrid(mask[..], w)(y', x') == MinWindow(GridColumn(f, x'), h, y' - r, 2 * r + 1)
      {
        var m := ColumnMinimum(pass1, w, h, y, x, r);
        assert 0 <= At(w, y, x) < w * h;
        ghost var earlier := mask[..];
        mask[At(w, y, x)] := m;
        StoreCell(earlier, mask[..], w, h, y, x, m);
      }
    }
  }

  /** Erodes in place; radii under half a pixel leave the mask untouched. */
  method ErodeMask(mask: array<Byte>, w: nat, h: nat, radius: real)
    requires mask.Length == w * h
    modifies mask
    ensures Trunc(radius + 0.5) < 1 ==> mask[..] == old(mask[..])
    ensures Trunc(radius + 0.5) >= 1 ==>
              IsErosion(AsGrid(old(mask[..]), w), AsGrid(mask[..], w), w, h, Trunc(radius + 0.5))
  {
    var r := Trunc(radius + 0.5);
    if r < 1 {
      return;
    }
    var pass1 := new Byte[mask.Length];
    MinimumOfRows(mask, pass1, w, h, r);
    MinimumOfColumns(pass1, mask, w, h, r);
    TwoPassesErode(AsGrid(old(mask[..]), w), AsGrid(pass1[..], w), AsGrid(mask[..], w), w, h, r);
  }

  // ----- The erosion as one image -----

  function RowMinima(f: Grid, w: nat, r: nat): Grid {
    (y, x) => MinWindow(GridRow(f, y), w, x - r, 2 * r + 1)
  }

  function SquareMinima(f: Grid, w: nat, h: nat, r: nat): Grid {
    (y, x) => MinWindow(GridColumn(RowMinima(f, w, r), x), h, y - r, 2 * r + 1)
  }

  /** The eroded mask, radius already rounded; a radius below 1 leaves the mask alone. */
  function Eroded(mask: seq<Byte>, w: nat, h: nat, r: int): (after: seq<Byte>)
    requires |mask| == w * h
    ensures |after| == w * h
  {
    if r < 1 then mask else Draw(w, h, SquareMinima(AsGrid(mask, w), w, h, r))
  }

  lemma ErodedIsErosion(mask: seq<Byte>, w: nat, h: nat, r: nat)
    requires |mask| == w * h && r >= 1
    ensures IsErosion(AsGrid(mask, w), AsGrid(Eroded(mask, w, h, r), w), w, h, r)
  {
    var f := AsGrid(mask, w);
    var rows, g := RowMinima(f, w, r), AsGrid(Eroded(mask, w, h, r), w);
    forall y, x | Inside(w, h, y, x)
      ensures g(y, x) == MinWindow(GridColumn(rows, x), h, y - r, 2 * r + 1)
    {
      DrawAt(w, h, SquareMinima(f, w, h, r), y, x);
    }
    TwoPassesErode(f, rows, g, w, h, r);
  }

  lemma ErosionIsEroded(mask: seq<Byte>, after: seq<Byte>, w: nat, h: nat, r: nat)
    requires |mask| == |after| == w * h && r >= 1
    requires IsErosion(AsGrid(mask, w), AsGrid(after, w), w, h, r)
    ensures after == Eroded(mask, w, h, r)
  {
    ErodedIsErosion(mask, w, h, r);
    ErosionUnique(AsGrid(mask, w), after, Eroded(mask, w, h, r), w, h, r);
  }

  /** Two erosions in a row are one erosion by the sum of the radii. */
  lemma ErodedTwice(mask: seq<Byte>, w: nat, h: nat, r: nat, s: nat)
    requires |mask| == w * h && r >= 1 && s >= 1
    ensures Eroded(Eroded(mask, w, h, r), w, h, s) == Eroded(mask, w, h, r + s)
  {
    var once := Eroded(mask, w, h, r);
    ErodedIsErosion(mask, w, h, r);
    ErodedIsErosion(once, w, h, s);
    ErosionsCompose(AsGrid(mask, w), AsGrid(once, w), AsGrid(Eroded(once, w, h, s), w), w, h, r, s);
    ErosionIsEroded(mask, Eroded(once, w, h, s), w, h, r + s);
  }
}
