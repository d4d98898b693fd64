/** Gridded fields: a (Y, X) raster is a row-major sequence of Y*X cells and a
    (T, Y, X) cube is a sequence of T rasters. `Flatten` is numpy's C-order
    `flatten`, which puts cell (t, y, x) at row t*Y*X + y*X + x. */
module Grid {
  import opened Values

  /** One (Y, X) raster; cell (y, x) is element y*X + x. */
  type Slice = seq<Value>

  /** A (T, Y, X) cube: one raster per time step. */
  type Cube = seq<Slice>

  /** Every raster of the cube has `cells` cells. */
  predicate Uniform(c: Cube, cells: nat)
  {
    forall t :: 0 <= t < |c| ==> |c[t]| == cells
  }

  /** Row of cell (t, y, x) in the flattened cube of a grid with X columns and Y rows. */
  function Index(ny: nat, nx: nat, t: nat, y: nat, x: nat): nat
  {
    t * ny * nx + y * nx + x
  }

  /** `cube.flatten()`: the rasters one after the other. */
  function Flatten(c: Cube): seq<Value>
  {
    if c == [] then [] else c[0] + Flatten(c[1..])
  }

  /** `np.tile(raster, [n, 1, 1])`: the same raster at each of n time steps. */
  function Repeat(s: Slice, n: nat): (r: Cube)
    ensures |r| == n && forall t :: 0 <= t < n ==> r[t] == s
  {
    seq(n, _ => s)
  }

  /** `np.tile(scalar, [Y, X])`: a raster with one value in every cell. */
  function Fill(v: Value, cells: nat): (r: Slice)
    ensures |r| == cells && forall k :: 0 <= k < cells ==> r[k] == v
  {
    seq(cells, _ => v)
  }

  lemma {:induction false} FlattenLength(c: Cube, cells: nat)
    requires Uniform(c, cells)
    ensures |Flatten(c)| == |c| * cells
  {
    if c != [] {
      FlattenLength(c[1..], cells);
    }
  }

  lemma {:induction false} FlattenAppend(a: Cube, b: Cube)
    ensures Flatten(a + b) == Flatten(a) + Flatten(b)
  {
    if a != [] {
      assert (a + b)[1..] == a[1..] + b;
      FlattenAppend(a[1..], b);
    } else {
      assert a + b == b;
    }
  }

  /** Row t*cells + k of the flattened cube is cell k of raster t. */
  lemma {:induction false} FlattenAt(c: Cube, cells: nat, t: nat, k: nat)
    requires Uniform(c, cells) && t < |c| && k < cells
    ensures t * cells + k < |Flatten(c)|
    ensures Flatten(c)[t * cells + k] == c[t][k]
  {
    FlattenLength(c, cells);
    if t > 0 {
      FlattenAt(c[1..], cells, t - 1, k);
      assert t * cells + k == cells + ((t - 1) * cells + k);
    }
  }

  /** Row i of the flattened cube is cell i % cells of raster i / cells. */
  lemma FlattenRow(c: Cube, cells: nat, i: nat)
    requires Uniform(c, cells) && i < |Flatten(c)|
    ensures cells > 0 && i / cells < |c|
    ensures Flatten(c)[i] == c[i / cells][i % cells]
  {
    FlattenLength(c, cells);
    var t, k := i / cells, i % cells;
    assert i == t * cells + k;
    assert t < |c| by {
      if |c| <= t {
        MulMono(|c|, t, cells);
      }
    }
    FlattenAt(c, cells, t, k);
  }

  lemma MulMono(a: nat, b: nat, m: nat)
    requires a <= b
    ensures a * m <= b * m
  {
  }

  /** Cell (y, x) of a Y-by-X grid lies inside its Y*X cells. */
  lemma CellInside(ny: nat, nx: nat, y: nat, x: nat)
    requires y < ny && x < nx
    ensures y * nx + x < ny * nx
  {
    MulMono(y + 1, ny, nx);
    assert (y + 1) * nx == y * nx + nx;
  }

  /** The row of (t, y, x) is t whole rasters in, plus the cell's place. */
  lemma IndexSplit(ny: nat, nx: nat, t: nat, y: nat, x: nat)
    ensures Index(ny, nx, t, y, x) == t * (ny * nx) + (y * nx + x)
  {
    assert t * ny * nx == t * (ny * nx);
  }

  /** The flattening order of a (T, Y, X) cube: row t*Y*X + y*X + x holds cube[t][y][x]. */
  lemma FlattenIndex(c: Cube, ny: nat, nx: nat, t: nat, y: nat, x: nat)
    requires Uniform(c, ny * nx) && t < |c| && y < ny && x < nx
    ensures y * nx + x < ny * nx
    ensures Index(ny, nx, t, y, x) < |Flatten(c)|
    ensures Flatten(c)[Index(ny, nx, t, y, x)] == c[t][y * nx + x]
  {
    CellInside(ny, nx, y, x);
    IndexSplit(ny, nx, t, y, x);
    FlattenAt(c, ny * nx, t, y * nx + x);
  }
}
