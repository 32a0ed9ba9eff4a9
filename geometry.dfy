/** Vectors and the uniform grid helper that the simulation buckets particles into.

    Positions are triples of exact reals. The grid helper (`GridUtility`, with `cellId`,
    `isInside`, `worldToGrid`, `get27Neighbors` and `spacing`) lives in a header that is not
    part of this model: its functions are carried as data, and what the simulation relies on
    is stated as predicates over them. */
module Geometry {

  datatype Vec3 = Vec3(x: real, y: real, z: real) {
    function Plus(o: Vec3): Vec3 { Vec3(x + o.x, y + o.y, z + o.z) }
    function Minus(o: Vec3): Vec3 { Vec3(x - o.x, y - o.y, z - o.z) }
    function Scale(c: real): Vec3 { Vec3(c * x, c * y, c * z) }
    function LengthSquared(): real { x * x + y * y + z * z }
  }

  /** `Vec3r(c)`: the vector with all three coordinates equal to c. */
  function Splat(c: real): Vec3 { Vec3(c, c, c) }

  const Zero: Vec3 := Splat(0.0)

  /** Squared distance between two points, as the neighbour search computes it. */
  function Dist2(a: Vec3, b: Vec3): (r: real)
    ensures r >= 0.0
    ensures a == b ==> r == 0.0
  {
    a.Minus(b).LengthSquared()
  }

  type Cell3 = (int, int, int)

  /** One instance of the grid helper: the number of cells, the cell edge, and the
      functions that map a world position to a flattened cell id or an integer cell
      coordinate, and a position and radius to the ids of the surrounding 3x3x3 cells. */
  datatype GridInfo = GridInfo(
    size: nat,
    spacing: real,
    cellId: Vec3 -> int,
    worldToGrid: Vec3 -> Cell3,
    neighbors27: (Vec3, real) -> seq<int>)
  {
    /** `isInside(id)`: the id names one of the grid's cells. */
    predicate IsInside(id: int) { 0 <= id < size }

    /** The block of cells returned for x and r holds every in-grid cell of every point
        closer to x than r: the reason the 27-cell search sees every neighbour. */
    ghost predicate Covers(r: real) {
      forall x: Vec3, y: Vec3 {:trigger neighbors27(x, r), cellId(y)} ::
        Dist2(y, x) < r * r && IsInside(cellId(y)) ==> cellId(y) in neighbors27(x, r)
    }
  }

  /** What every grid helper guarantees: `get27Neighbors` only returns ids of cells of the
      grid (it clips the 3x3x3 block to the grid extents). */
  ghost predicate CellsInRange(g: GridInfo) {
    forall x, r, t :: 0 <= t < |g.neighbors27(x, r)| ==> g.IsInside(g.neighbors27(x, r)[t])
  }

  type ValidGrid = g: GridInfo | CellsInRange(g)
    witness GridInfo(0, 1.0, x => 0, x => (0, 0, 0), (x, r) => [])
}
