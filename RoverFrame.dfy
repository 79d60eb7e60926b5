/** Rover-centred coordinates of the set pixels of a mask (`rover_coords` in
    code/perception.py, with the `nonzero()` it starts from).

    The rover stands at the bottom centre of the top-down image: a pixel in
    row `row` and column `col` of an `H` by `W` mask lies `H - row` ahead of
    the rover and `W/2 - col` to its left. Coordinates are exact reals; the
    half width is a true division, so an odd width gives half-integers. */
module RoverFrame {
  import opened Imaging

  /** A pixel position as `nonzero()` reports it: row first, then column. */
  datatype Cell = Cell(row: nat, col: nat)

  /** `a` comes strictly before `b` in raster (row-major) order. */
  predicate Before(a: Cell, b: Cell) {
    a.row < b.row || (a.row == b.row && a.col < b.col)
  }

  predicate RasterSorted(cells: seq<Cell>) {
    forall i, j :: 0 <= i < j < |cells| ==> Before(cells[i], cells[j])
  }

  /** The set pixels of `row` (row number `r`) from column `c` on. */
  function RowHits(row: seq<int>, r: nat, c: nat): (cells: seq<Cell>)
    decreases |row| - c
  {
    if c >= |row| then []
    else (if row[c] != 0 then [Cell(r, c)] else []) + RowHits(row, r, c + 1)
  }

  /** The set pixels of rows `r` and below, in raster order. */
  function NonzeroFrom(m: Mask, r: nat): (cells: seq<Cell>)
    decreases |m| - r
  {
    if r >= |m| then [] else RowHits(m[r], r, 0) + NonzeroFrom(m, r + 1)
  }

  /** `binary_img.nonzero()`, its two index arrays zipped into cells. */
  function Nonzero(m: Mask): (cells: seq<Cell>)
  {
    NonzeroFrom(m, 0)
  }

  lemma {:induction false} RowHitsSound(row: seq<int>, r: nat, c: nat)
    ensures forall i :: 0 <= i < |RowHits(row, r, c)| ==>
      var cell := RowHits(row, r, c)[i];
      cell.row == r && c <= cell.col < |row| && row[cell.col] != 0
    decreases |row| - c
  {
    if c < |row| {
      RowHitsSound(row, r, c + 1);
    }
  }

  lemma {:induction false} RowHitsComplete(row: seq<int>, r: nat, c: nat, col: nat)
    requires c <= col < |row| && row[col] != 0
    ensures Cell(r, col) in RowHits(row, r, c)
    decreases |row| - c
  {
    if c < col {
      RowHitsComplete(row, r, c + 1, col);
    }
  }

  lemma {:induction false} RowHitsSorted(row: seq<int>, r: nat, c: nat)
    ensures RasterSorted(RowHits(row, r, c))
    decreases |row| - c
  {
    if c < |row| {
      RowHitsSorted(row, r, c + 1);
      RowHitsSound(row, r, c + 1);
    }
  }

  /** Two sorted runs, the first wholly before the second, make a sorted run. */
  lemma SortedConcat(a: seq<Cell>, b: seq<Cell>)
    requires RasterSorted(a) && RasterSorted(b)
    requires forall i, j :: 0 <= i < |a| && 0 <= j < |b| ==> Before(a[i], b[j])
    ensures RasterSorted(a + b)
  {
  }

  lemma {:induction false} NonzeroFromSound(m: Mask, r: nat)
    ensures forall i :: 0 <= i < |NonzeroFrom(m, r)| ==>
      var cell := NonzeroFrom(m, r)[i];
      r <= cell.row < |m| && cell.col < |m[cell.row]| && m[cell.row][cell.col] != 0
    decreases |m| - r
  {
    if r < |m| {
      RowHitsSound(m[r], r, 0);
      NonzeroFromSound(m, r + 1);
    }
  }

  lemma {:induction false} NonzeroFromComplete(m: Mask, r: nat, row: nat, col: nat)
    requires r <= row < |m| && col < |m[row]| && m[row][col] != 0
    ensures Cell(row, col) in NonzeroFrom(m, r)
    decreases |m| - r
  {
    if r == row {
      RowHitsComplete(m[r], r, 0, col);
    } else {
      NonzeroFromComplete(m, r + 1, row, col);
    }
  }

  lemma {:induction false} NonzeroFromSorted(m: Mask, r: nat)
    ensures RasterSorted(NonzeroFrom(m, r))
    decreases |m| - r
  {
    if r < |m| {
      RowHitsSorted(m[r], r, 0);
      RowHitsSound(m[r], r, 0);
      NonzeroFromSorted(m, r + 1);
      NonzeroFromSound(m, r + 1);
      SortedConcat(RowHits(m[r], r, 0), NonzeroFrom(m, r + 1));
    }
  }

  /** `nonzero()` lists every set pixel of the mask, and only those, once each
      and in raster order. */
  lemma NonzeroIsRasterScan(m: Mask)
    ensures forall i :: 0 <= i < |Nonzero(m)| ==>
      var cell := Nonzero(m)[i];
      cell.row < |m| && cell.col < |m[cell.row]| && m[cell.row][cell.col] != 0
    ensures forall row, col :: 0 <= row < |m| && 0 <= col < |m[row]| && m[row][col] != 0 ==>
      Cell(row, col) in Nonzero(m)
    ensures RasterSorted(Nonzero(m))
  {
    NonzeroFromSound(m, 0);
    NonzeroFromSorted(m, 0);
    forall row, col | 0 <= row < |m| && 0 <= col < |m[row]| && m[row][col] != 0
      ensures Cell(row, col) in Nonzero(m)
    {
      NonzeroFromComplete(m, 0, row, col);
    }
  }

  /** The number of set entries of a row. */
  function RowCount(row: seq<int>): nat {
    if row == [] then 0 else (if row[0] != 0 then 1 else 0) + RowCount(row[1..])
  }

  /** The number of set pixels of a mask. */
  function SetPixels(m: Mask): nat {
    if m == [] then 0 else RowCount(m[0]) + SetPixels(m[1..])
  }

  lemma {:induction false} RowHitsCount(row: seq<int>, r: nat, c: nat)
    requires c <= |row|
    ensures |RowHits(row, r, c)| == RowCount(row[c..])
    decreases |row| - c
  {
    if c < |row| {
      RowHitsCount(row, r, c + 1);
      assert row[c..][1..] == row[c + 1..];
    }
  }

  lemma {:induction false} NonzeroFromCount(m: Mask, r: nat)
    requires r <= |m|
    ensures |NonzeroFrom(m, r)| == SetPixels(m[r..])
    decreases |m| - r
  {
    if r < |m| {
      RowHitsCount(m[r], r, 0);
      assert m[r][0..] == m[r];
      NonzeroFromCount(m, r + 1);
      assert m[r..][1..] == m[r + 1..];
    }
  }

  /** The width `binary_img.shape[1]` of a mask; a mask without rows has no
      set pixels, so its width never matters. */
  function Width(m: Mask): nat {
    if |m| == 0 then 0 else |m[0]|
  }

  /** Forward distance of a pixel in row `row` of a mask `h` rows high. */
  function ForwardOf(h: nat, row: int): real {
    (h - row) as real
  }

  /** Leftward offset of a pixel in column `col` of a mask `w` columns wide. */
  function LeftOf(w: nat, col: int): real {
    (w as real) / 2.0 - col as real
  }

  /** `rover_coords`: one `(x, y)` pair per set pixel, in the order `nonzero()`
      lists them. */
  function RoverCoords(m: Mask): (p: (seq<real>, seq<real>))
    ensures |p.0| == |p.1| == |Nonzero(m)|
  {
    var cells := Nonzero(m);
    (seq(|cells|, i requires 0 <= i < |cells| => ForwardOf(|m|, cells[i].row)),
     seq(|cells|, i requires 0 <= i < |cells| => LeftOf(Width(m), cells[i].col)))
  }

  /** Distinct pixels give distinct points: the point determines the pixel. */
  lemma RoverPointDeterminesPixel(h: nat, w: nat, row1: int, col1: int, row2: int, col2: int)
    requires ForwardOf(h, row1) == ForwardOf(h, row2) && LeftOf(w, col1) == LeftOf(w, col2)
    ensures row1 == row2 && col1 == col2
  {
  }

  /** Every point of `rover_coords` comes from a set pixel inside the mask. */
  lemma RoverCoordsSound(m: Mask, i: nat)
    requires IsGrid(m, |m|, Width(m))
    requires i < |RoverCoords(m).0|
    ensures var (xs, ys) := RoverCoords(m);
      exists row: nat, col: nat :: row < |m| && col < Width(m) && m[row][col] != 0
        && xs[i] == ForwardOf(|m|, row) && ys[i] == LeftOf(Width(m), col)
  {
    NonzeroIsRasterScan(m);
    var cell := Nonzero(m)[i];
    var (xs, ys) := RoverCoords(m);
    assert cell.row < |m| && cell.col < Width(m) && m[cell.row][cell.col] != 0;
    assert xs[i] == ForwardOf(|m|, cell.row) && ys[i] == LeftOf(Width(m), cell.col);
  }

  /** Every set pixel of the mask shows up as a point of `rover_coords`. */
  lemma RoverCoordsComplete(m: Mask, row: nat, col: nat)
    requires row < |m| && col < |m[row]| && m[row][col] != 0
    ensures var (xs, ys) := RoverCoords(m);
      exists i :: 0 <= i < |xs| && xs[i] == ForwardOf(|m|, row) && ys[i] == LeftOf(Width(m), col)
  {
    NonzeroIsRasterScan(m);
    var i :| 0 <= i < |Nonzero(m)| && Nonzero(m)[i] == Cell(row, col);
    var (xs, ys) := RoverCoords(m);
    assert xs[i] == ForwardOf(|m|, row) && ys[i] == LeftOf(Width(m), col);
  }

  /** `rover_coords` gives exactly one point per set pixel. */
  lemma RoverCoordsCount(m: Mask)
    ensures |RoverCoords(m).0| == |RoverCoords(m).1| == SetPixels(m)
  {
    NonzeroFromCount(m, 0);
    assert m[0..] == m;
  }

  /** Raster order in the rover frame: points run from the far rows to the
      near ones, and within a row from left to right of the rover, so no
      point repeats. */
  lemma RoverCoordsOrdered(m: Mask)
    ensures var (xs, ys) := RoverCoords(m);
      forall i, j :: 0 <= i < j < |xs| ==> xs[i] > xs[j] || (xs[i] == xs[j] && ys[i] > ys[j])
  {
    NonzeroIsRasterScan(m);
  }

  /** Every point lies ahead of the rover by 1 to `H` and at most `W/2` to
      either side: `1 <= x <= H` and `W/2 - (W - 1) <= y <= W/2`. */
  lemma RoverCoordsBounds(m: Mask)
    requires IsGrid(m, |m|, Width(m))
    ensures var (xs, ys) := RoverCoords(m);
      forall i :: 0 <= i < |xs| ==>
        1.0 <= xs[i] <= |m| as real &&
        LeftOf(Width(m), Width(m) - 1) <= ys[i] <= (Width(m) as real) / 2.0
  {
    NonzeroIsRasterScan(m);
  }

  lemma {:induction false} RowHitsOfBlankRow(row: seq<int>, r: nat, c: nat)
    requires forall k :: 0 <= k < |row| ==> row[k] == 0
    ensures RowHits(row, r, c) == []
    decreases |row| - c
  {
    if c < |row| {
      RowHitsOfBlankRow(row, r, c + 1);
    }
  }

  lemma {:induction false} NonzeroFromOfBlankMask(m: Mask, r: nat)
    requires forall i, k :: 0 <= i < |m| && 0 <= k < |m[i]| ==> m[i][k] == 0
    ensures NonzeroFrom(m, r) == []
    decreases |m| - r
  {
    if r < |m| {
      RowHitsOfBlankRow(m[r], r, 0);
      NonzeroFromOfBlankMask(m, r + 1);
    }
  }

  /** A mask with no set pixel gives no points. */
  lemma RoverCoordsOfBlankMask(m: Mask)
    requires forall r, c :: 0 <= r < |m| && 0 <= c < |m[r]| ==> m[r][c] == 0
    ensures RoverCoords(m) == ([], [])
  {
    NonzeroFromOfBlankMask(m, 0);
  }
}
