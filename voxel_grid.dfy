/**
 * The voxel grid: a cubic grid of gridLength cells per axis laid over the
 * world box [worldMin, worldMax], the mappings between world positions and
 * grid cells, and the list of occupied cells. Floats are modelled as reals.
 */
module Voxels {
  import opened Vectors

  // ---------------------------------------------------------------- one axis

  /** glm::clamp(x, 0, 1) on one component. */
  function Clamp01(x: real): (c: real)
    ensures 0.0 <= c <= 1.0
    ensures 0.0 <= x <= 1.0 ==> c == x
    ensures x < 0.0 ==> c == 0.0
    ensures x > 1.0 ==> c == 1.0
  {
    if x < 0.0 then 0.0 else if x > 1.0 then 1.0 else x
  }

  /**
   * worldToGridPosition on one axis: the coordinate normalised to the
   * box, clamped to [0, 1], scaled by the grid length and floored. The
   * extent may be negative (the normalised coordinate is then mirrored);
   * only a zero extent has no value. Whatever the coordinate, the cell index
   * lies in [0, n]: the upper end n, one past the last cell, is reachable.
   */
  function AxisToGrid(p: real, lo: real, hi: real, n: int): (g: int)
    requires lo != hi
    ensures n >= 0 ==> 0 <= g <= n
  {
    var c := Clamp01((p - lo) / (hi - lo));
    ScaleWithin(c, n as real);
    (c * n as real).Floor
  }

  /** A fraction in [0, 1] of a non-negative length lies between 0 and that length. */
  lemma ScaleWithin(c: real, len: real)
    requires 0.0 <= c <= 1.0
    ensures len >= 0.0 ==> 0.0 <= c * len <= len
  {
    assert len - c * len == (1.0 - c) * len;
  }

  /**
   * gridToWorldPosition on one axis: the centre of cell g, which for a
   * positive scale lies strictly between the cell's two faces.
   */
  function AxisToWorld(g: int, lo: real, scale: real): (w: real)
    ensures scale > 0.0 ==> lo + g as real * scale < w < lo + (g + 1) as real * scale
  {
    lo + (g as real + 0.5) * scale
  }

  /** A coordinate at or beyond the upper bound maps to n, one past the last cell. */
  lemma AxisToGridAbove(p: real, lo: real, hi: real, n: int)
    requires lo < hi && p >= hi
    ensures AxisToGrid(p, lo, hi, n) == n
  {
    assert (p - lo) / (hi - lo) >= 1.0 by {
      assert p - lo >= hi - lo;
    }
  }

  /** A coordinate at or below the lower bound maps to cell 0. */
  lemma AxisToGridBelow(p: real, lo: real, hi: real, n: int)
    requires lo < hi && p <= lo
    ensures AxisToGrid(p, lo, hi, n) == 0
  {
    var d := hi - lo;
    var t := (p - lo) / d;
    assert t * d == p - lo;
    NonPositiveQuotient(t, d);
  }

  /** A quotient whose product with a positive extent is not positive is not positive itself. */
  lemma NonPositiveQuotient(t: real, d: real)
    requires d > 0.0 && t * d <= 0.0
    ensures t <= 0.0
  {
  }

  /**
   * A coordinate inside [lo, hi) is not clamped: it maps to the floor of
   * its scaled offset, which is a cell of the grid, in [0, n).
   */
  lemma AxisToGridInside(p: real, lo: real, hi: real, n: int)
    requires lo <= p < hi && n > 0
    ensures AxisToGrid(p, lo, hi, n) == ((p - lo) / (hi - lo) * n as real).Floor
    ensures 0 <= AxisToGrid(p, lo, hi, n) < n
  {
    var d := hi - lo;
    var t := (p - lo) / d;
    assert t * d == p - lo;
    ScaleBelow(t, d);
    assert t * n as real < n as real;
  }

  /** Any coordinate below the upper bound maps to a cell of the grid, in [0, n). */
  lemma AxisToGridBelowMax(p: real, lo: real, hi: real, n: int)
    requires lo < hi && p < hi && n > 0
    ensures 0 <= AxisToGrid(p, lo, hi, n) < n
  {
    if p < lo {
      AxisToGridBelow(p, lo, hi, n);
    } else {
      AxisToGridInside(p, lo, hi, n);
    }
  }

  /** A non-negative quotient of an offset smaller than the extent lies in [0, 1). */
  lemma ScaleBelow(t: real, d: real)
    requires d > 0.0 && 0.0 <= t * d < d
    ensures 0.0 <= t < 1.0
  {
  }

  /** Multiplying by a positive scale keeps both bounds of an interval (-1/2, 1/2]. */
  lemma HalfBounds(w: real, scale: real, e: real)
    requires -0.5 < w <= 0.5 && scale > 0.0 && e == w * scale
    ensures -scale / 2.0 < e <= scale / 2.0
  {
    assert -0.5 * scale < w * scale;
    assert w * scale <= 0.5 * scale;
  }

  /**
   * When the voxel scale is the box extent over the grid length, mapping a
   * coordinate of the closed box [lo, hi] to its cell and back to the cell
   * centre lands within half a voxel of it. At hi itself the cell is n, one
   * past the last, whose centre lies exactly half a voxel beyond hi.
   */
  lemma AxisRoundTrip(p: real, lo: real, hi: real, n: int, scale: real)
    requires lo < hi && lo <= p <= hi && n > 0 && scale == (hi - lo) / n as real
    ensures -scale / 2.0 < AxisToWorld(AxisToGrid(p, lo, hi, n), lo, scale) - p <= scale / 2.0
  {
    if p == hi {
      AxisToGridAbove(hi, lo, hi, n);
      assert scale * n as real == hi - lo;
    } else {
      InsideRoundTrip(p, lo, hi, n, scale);
    }
  }

  /** The round trip for a coordinate inside [lo, hi), where nothing is clamped. */
  lemma InsideRoundTrip(p: real, lo: real, hi: real, n: int, scale: real)
    requires lo <= p < hi && n > 0 && scale == (hi - lo) / n as real
    ensures -scale / 2.0 < AxisToWorld(AxisToGrid(p, lo, hi, n), lo, scale) - p <= scale / 2.0
  {
    AxisToGridInside(p, lo, hi, n);
    var d := hi - lo;
    var t := (p - lo) / d;
    var v := t * n as real;
    var g := AxisToGrid(p, lo, hi, n);
    assert g == v.Floor;
    assert scale * n as real == d;
    assert p - lo == v * scale by {
      assert p - lo == t * d;
      assert t * d == t * (scale * n as real);
    }
    var w := g as real + 0.5 - v;
    var e := AxisToWorld(g, lo, scale) - p;
    assert e == w * scale;
    HalfBounds(w, scale, e);
  }

  /**
   * The other round trip: the centre of a cell of the grid maps back to
   * that cell, when the voxel scale is the box extent over the grid length.
   */
  lemma CellCentreRoundTrip(g: int, lo: real, hi: real, n: int, scale: real)
    requires lo < hi && 0 <= g < n && scale == (hi - lo) / n as real
    ensures AxisToGrid(AxisToWorld(g, lo, scale), lo, hi, n) == g
  {
    var p := AxisToWorld(g, lo, scale);
    var d := hi - lo;
    var m := g as real + 0.5;
    assert scale * n as real == d;
    assert p - lo == m * scale;
    assert (p - lo) / d * n as real == m by {
      assert (p - lo) * n as real == m * d;
    }
    assert p < hi by {
      assert m < n as real;
      assert m * scale < n as real * scale;
    }
    AxisToGridInside(p, lo, hi, n);
  }

  // ---------------------------------------------------------------- the grid

  class VoxelGrid {
    /** Cells per axis; the grid is cubic. */
    var gridLength: int
    /** World-space size the voxel scale is computed from (not derived from the bounds). */
    var worldLength: real
    /** Edge length of one voxel. */
    var voxelScale: real
    var worldMin: Vec3
    var worldMax: Vec3
    var occupiedPositions: seq<IVec3>

    /** The box has a non-zero extent on every axis, so world positions can be normalised. */
    predicate ExtentNonZero()
      reads this
    {
      worldMin.x != worldMax.x && worldMin.y != worldMax.y && worldMin.z != worldMax.z
    }

    /** The box has positive extent on every axis: worldMin is its lower corner. */
    predicate BoundsValid()
      reads this
      ensures BoundsValid() ==> ExtentNonZero()
    {
      worldMin.x < worldMax.x && worldMin.y < worldMax.y && worldMin.z < worldMax.z
    }

    /** The voxel scale is the box extent over the grid length on every axis: voxels tile the box. */
    predicate ScaleMatchesBounds()
      reads this
    {
      && gridLength > 0
      && voxelScale == (worldMax.x - worldMin.x) / gridLength as real
      && voxelScale == (worldMax.y - worldMin.y) / gridLength as real
      && voxelScale == (worldMax.z - worldMin.z) / gridLength as real
    }

    /** The member initialisers: 64 cells over the box [-1, 1]^3 of length 2, no cell occupied. */
    constructor ()
      ensures gridLength == 64 && worldLength == 2.0 && voxelScale == 2.0 / 64.0
      ensures worldMin == Vec3(-1.0, -1.0, -1.0) && worldMax == Vec3(1.0, 1.0, 1.0)
      ensures occupiedPositions == []
      ensures BoundsValid() && ScaleMatchesBounds()
    {
      gridLength := 64;
      worldLength := 2.0;
      voxelScale := 2.0 / 64 as real;
      worldMin := Vec3(-1.0, -1.0, -1.0);
      worldMax := Vec3(1.0, 1.0, 1.0);
      occupiedPositions := [];
    }

    /** isGridPositionOccupied: std::find over the occupied list. */
    method IsGridPositionOccupied(gridPos: IVec3) returns (occupied: bool)
      ensures occupied <==> gridPos in occupiedPositions
    {
      var i := 0;
      while i < |occupiedPositions|
        invariant 0 <= i <= |occupiedPositions|
        invariant gridPos !in occupiedPositions[..i]
      {
        if occupiedPositions[i] == gridPos {
          return true;
        }
        assert occupiedPositions[..i + 1] == occupiedPositions[..i] + [occupiedPositions[i]];
        i := i + 1;
      }
      assert occupiedPositions[..i] == occupiedPositions;
      return false;
    }

    /**
     * worldToGridPosition: each axis normalised to the box, clamped, scaled
     * and floored. Every component lies in [0, gridLength], wherever the
     * position is.
     */
    function WorldToGridPosition(worldPos: Vec3): (g: IVec3)
      requires ExtentNonZero()
      reads this
      ensures gridLength >= 0 ==> 0 <= g.x <= gridLength && 0 <= g.y <= gridLength && 0 <= g.z <= gridLength
    {
      IVec3(AxisToGrid(worldPos.x, worldMin.x, worldMax.x, gridLength),
            AxisToGrid(worldPos.y, worldMin.y, worldMax.y, gridLength),
            AxisToGrid(worldPos.z, worldMin.z, worldMax.z, gridLength))
    }

    /**
     * gridToWorldPosition: the centre of the cell on every axis, strictly
     * inside the cell [worldMin + gridPos * voxelScale, worldMin + (gridPos + 1) * voxelScale)
     * when the voxel scale is positive.
     */
    function GridToWorldPosition(gridPos: IVec3): (w: Vec3)
      reads this
      ensures voxelScale > 0.0 ==>
        && worldMin.x + gridPos.x as real * voxelScale < w.x < worldMin.x + (gridPos.x + 1) as real * voxelScale
        && worldMin.y + gridPos.y as real * voxelScale < w.y < worldMin.y + (gridPos.y + 1) as real * voxelScale
        && worldMin.z + gridPos.z as real * voxelScale < w.z < worldMin.z + (gridPos.z + 1) as real * voxelScale
    {
      Vec3(AxisToWorld(gridPos.x, worldMin.x, voxelScale),
           AxisToWorld(gridPos.y, worldMin.y, voxelScale),
           AxisToWorld(gridPos.z, worldMin.z, voxelScale))
    }

    /** clearGrid: no cell is occupied any more. */
    method ClearGrid()
      modifies this
      ensures occupiedPositions == []
      ensures gridLength == old(gridLength) && worldLength == old(worldLength) && voxelScale == old(voxelScale)
      ensures worldMin == old(worldMin) && worldMax == old(worldMax)
    {
      occupiedPositions := [];
    }

    /** calculateVoxelScale: the world length over the grid length; the bounds are not consulted. */
    method CalculateVoxelScale()
      requires gridLength != 0
      modifies this
      ensures gridLength == old(gridLength) && worldLength == old(worldLength)
      ensures voxelScale == worldLength / gridLength as real
      ensures worldMin == old(worldMin) && worldMax == old(worldMax) && occupiedPositions == old(occupiedPositions)
    {
      voxelScale := worldLength / gridLength as real;
    }
  }

  // ---------------------------------------------------------------- grid properties

  /** A position at or beyond worldMax on every axis maps to (gridLength, gridLength, gridLength). */
  lemma WorldToGridAtUpperBound(grid: VoxelGrid, p: Vec3)
    requires grid.BoundsValid()
    requires p.x >= grid.worldMax.x && p.y >= grid.worldMax.y && p.z >= grid.worldMax.z
    ensures grid.WorldToGridPosition(p) == IVec3(grid.gridLength, grid.gridLength, grid.gridLength)
  {
    AxisToGridAbove(p.x, grid.worldMin.x, grid.worldMax.x, grid.gridLength);
    AxisToGridAbove(p.y, grid.worldMin.y, grid.worldMax.y, grid.gridLength);
    AxisToGridAbove(p.z, grid.worldMin.z, grid.worldMax.z, grid.gridLength);
  }

  /**
   * A position below worldMax on every axis maps to a cell of the grid, in
   * [0, gridLength) on every axis; below worldMin it is clamped to cell 0.
   */
  lemma WorldToGridBelowMax(grid: VoxelGrid, p: Vec3)
    requires grid.BoundsValid() && grid.gridLength > 0
    requires p.x < grid.worldMax.x && p.y < grid.worldMax.y && p.z < grid.worldMax.z
    ensures var g := grid.WorldToGridPosition(p);
      && 0 <= g.x < grid.gridLength
      && 0 <= g.y < grid.gridLength
      && 0 <= g.z < grid.gridLength
  {
    AxisToGridBelowMax(p.x, grid.worldMin.x, grid.worldMax.x, grid.gridLength);
    AxisToGridBelowMax(p.y, grid.worldMin.y, grid.worldMax.y, grid.gridLength);
    AxisToGridBelowMax(p.z, grid.worldMin.z, grid.worldMax.z, grid.gridLength);
  }

  /**
   * With voxels tiling the box, a position of the closed box [worldMin,
   * worldMax] maps to a cell whose centre is within half a voxel of the
   * position on every axis.
   */
  lemma WorldGridRoundTrip(grid: VoxelGrid, p: Vec3)
    requires grid.BoundsValid() && grid.ScaleMatchesBounds()
    requires grid.worldMin.x <= p.x <= grid.worldMax.x
    requires grid.worldMin.y <= p.y <= grid.worldMax.y
    requires grid.worldMin.z <= p.z <= grid.worldMax.z
    ensures var w := grid.GridToWorldPosition(grid.WorldToGridPosition(p));
      && -grid.voxelScale / 2.0 < w.x - p.x <= grid.voxelScale / 2.0
      && -grid.voxelScale / 2.0 < w.y - p.y <= grid.voxelScale / 2.0
      && -grid.voxelScale / 2.0 < w.z - p.z <= grid.voxelScale / 2.0
  {
    AxisRoundTrip(p.x, grid.worldMin.x, grid.worldMax.x, grid.gridLength, grid.voxelScale);
    AxisRoundTrip(p.y, grid.worldMin.y, grid.worldMax.y, grid.gridLength, grid.voxelScale);
    AxisRoundTrip(p.z, grid.worldMin.z, grid.worldMax.z, grid.gridLength, grid.voxelScale);
  }

  /** With voxels tiling the box, the centre of every cell of the grid maps back to that cell. */
  lemma CellCentreMapsBack(grid: VoxelGrid, g: IVec3)
    requires grid.BoundsValid() && grid.ScaleMatchesBounds()
    requires 0 <= g.x < grid.gridLength && 0 <= g.y < grid.gridLength && 0 <= g.z < grid.gridLength
    ensures grid.WorldToGridPosition(grid.GridToWorldPosition(g)) == g
  {
    CellCentreRoundTrip(g.x, grid.worldMin.x, grid.worldMax.x, grid.gridLength, grid.voxelScale);
    CellCentreRoundTrip(g.y, grid.worldMin.y, grid.worldMax.y, grid.gridLength, grid.voxelScale);
    CellCentreRoundTrip(g.z, grid.worldMin.z, grid.worldMax.z, grid.gridLength, grid.voxelScale);
  }

  /**
   * The worked example of a 4-cell grid over [-1, 1]^3: 0.9 falls in cell 3,
   * 5 is clamped to the upper end 4, and cell 3's centre at voxel scale 0.5
   * is 0.75.
   */
  lemma FourCellExample()
    ensures AxisToGrid(0.9, -1.0, 1.0, 4) == 3
    ensures AxisToGrid(5.0, -1.0, 1.0, 4) == 4
    ensures AxisToWorld(3, -1.0, 0.5) == 0.75
  {
    AxisToGridInside(0.9, -1.0, 1.0, 4);
    assert (0.9 - -1.0) / (1.0 - -1.0) * 4 as real == 3.8;
    AxisToGridAbove(5.0, -1.0, 1.0, 4);
  }
}
