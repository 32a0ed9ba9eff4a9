/** Uniform-grid bucketing and the 27-cell neighbour search over it.

    A grid is a sequence of buckets, one per cell, each a list of indices into a particle
    (or boundary) array. `Bucket` is what a rebuild leaves in one cell; `NearIn` is what the
    filtered search collects from a list of cells; `Candidates` is what the unfiltered search
    collects. */
module SpatialGrid {
  import opened Geometry

  /** Every index stored in any bucket names one of the n elements. */
  ghost predicate IndicesBelow(grid: seq<seq<int>>, n: int) {
    forall c, t :: 0 <= c < |grid| && 0 <= t < |grid[c]| ==> 0 <= grid[c][t] < n
  }

  /** Every listed cell is a bucket of the grid. */
  ghost predicate CellsOf(cells: seq<int>, grid: seq<seq<int>>) {
    forall t :: 0 <= t < |cells| ==> 0 <= cells[t] < |grid|
  }

  /** `std::vector::resize(n)` on a grid: keep the first n buckets, add empty ones up to n. */
  function Resized(grid: seq<seq<int>>, n: nat): (r: seq<seq<int>>)
    ensures |r| == n
    ensures forall c :: 0 <= c < n && c < |grid| ==> r[c] == grid[c]
    ensures forall c :: |grid| <= c < n ==> r[c] == []
  {
    if |grid| >= n then grid[..n] else grid + seq(n - |grid|, _ => [])
  }

  /** The indices, in increasing order, of the positions that fall into cell c. */
  function Bucket(xs: seq<Vec3>, cellId: Vec3 -> int, c: int): (r: seq<int>)
    ensures forall t :: 0 <= t < |r| ==> 0 <= r[t] < |xs| && cellId(xs[r[t]]) == c
    ensures forall i :: 0 <= i < |xs| ==> (i in r <==> cellId(xs[i]) == c)
    ensures forall a, b :: 0 <= a < b < |r| ==> r[a] < r[b]
  {
    if |xs| == 0 then []
    else
      var rest := Bucket(xs[..|xs| - 1], cellId, c);
      if cellId(xs[|xs| - 1]) == c then rest + [|xs| - 1] else rest
  }

  /** A rebuild over positions xs leaves cell c of grid holding exactly Bucket(xs, ., c). */
  ghost predicate Bucketed(grid: seq<seq<int>>, xs: seq<Vec3>, g: GridInfo) {
    |grid| == g.size && forall c :: 0 <= c < |grid| ==> grid[c] == Bucket(xs, g.cellId, c)
  }

  /** After a rebuild, an index lies in the bucket of its own cell when that cell is in the
      grid, in no other bucket, and in no bucket at all when its cell is outside the grid. */
  lemma {:induction false} BucketsPartition(grid: seq<seq<int>>, xs: seq<Vec3>, g: GridInfo, i: int)
    requires Bucketed(grid, xs, g) && 0 <= i < |xs|
    ensures g.IsInside(g.cellId(xs[i])) ==> i in grid[g.cellId(xs[i])]
    ensures forall c :: 0 <= c < |grid| && c != g.cellId(xs[i]) ==> i !in grid[c]
    ensures !g.IsInside(g.cellId(xs[i])) ==> forall c :: 0 <= c < |grid| ==> i !in grid[c]
  {
  }

  /** The indices of ids whose position is strictly closer to x than sqrt(r2), in list order. */
  function FilterNear(ids: seq<int>, xs: seq<Vec3>, x: Vec3, r2: real): (r: seq<int>)
    requires forall t :: 0 <= t < |ids| ==> 0 <= ids[t] < |xs|
    ensures |r| <= |ids|
  {
    if |ids| == 0 then []
    else
      var rest := FilterNear(ids[..|ids| - 1], xs, x, r2);
      var j := ids[|ids| - 1];
      if Dist2(xs[j], x) < r2 then rest + [j] else rest
  }

  /** The filter keeps exactly the listed indices whose position is strictly closer to x
      than sqrt(r2). */
  lemma {:induction false} FilterNearMembers(ids: seq<int>, xs: seq<Vec3>, x: Vec3, r2: real)
    requires forall t :: 0 <= t < |ids| ==> 0 <= ids[t] < |xs|
    ensures forall j :: j in FilterNear(ids, xs, x, r2) <==> j in ids && 0 <= j < |xs| && Dist2(xs[j], x) < r2
  {
    if |ids| > 0 {
      var init := ids[..|ids| - 1];
      FilterNearMembers(init, xs, x, r2);
      assert ids == init + [ids[|ids| - 1]];
    }
  }

  /** What the filtered search collects from the buckets of cells, cell after cell. */
  function NearIn(cells: seq<int>, grid: seq<seq<int>>, xs: seq<Vec3>, x: Vec3, r2: real): seq<int>
    requires CellsOf(cells, grid) && IndicesBelow(grid, |xs|)
  {
    if |cells| == 0 then []
    else
      var rest := NearIn(cells[..|cells| - 1], grid, xs, x, r2);
      var bucket := grid[cells[|cells| - 1]];
      assert forall t :: 0 <= t < |bucket| ==> 0 <= bucket[t] < |xs|;
      rest + FilterNear(bucket, xs, x, r2)
  }

  /** What the unfiltered search collects: the buckets of cells, concatenated. */
  function Candidates(cells: seq<int>, grid: seq<seq<int>>): (r: seq<int>)
    requires CellsOf(cells, grid)
    ensures forall j :: j in r <==> exists t :: 0 <= t < |cells| && j in grid[cells[t]]
  {
    if |cells| == 0 then [] else Candidates(cells[..|cells| - 1], grid) + grid[cells[|cells| - 1]]
  }

  lemma {:induction false} FilterNearAppend(a: seq<int>, b: seq<int>, xs: seq<Vec3>, x: Vec3, r2: real)
    requires forall t :: 0 <= t < |a| ==> 0 <= a[t] < |xs|
    requires forall t :: 0 <= t < |b| ==> 0 <= b[t] < |xs|
    ensures FilterNear(a + b, xs, x, r2) == FilterNear(a, xs, x, r2) + FilterNear(b, xs, x, r2)
    decreases |b|
  {
    if |b| == 0 {
      assert a + b == a;
    } else {
      assert (a + b)[..|a + b| - 1] == a + b[..|b| - 1];
      FilterNearAppend(a, b[..|b| - 1], xs, x, r2);
    }
  }

  /** The filtered search is the unfiltered one followed by the distance filter: the two
      overloads of the search agree on the cells they visit. */
  lemma {:induction false} NearInIsFilteredCandidates(cells: seq<int>, grid: seq<seq<int>>, xs: seq<Vec3>, x: Vec3, r2: real)
    requires CellsOf(cells, grid) && IndicesBelow(grid, |xs|)
    ensures forall t :: 0 <= t < |Candidates(cells, grid)| ==> 0 <= Candidates(cells, grid)[t] < |xs|
    ensures NearIn(cells, grid, xs, x, r2) == FilterNear(Candidates(cells, grid), xs, x, r2)
  {
    var cs := Candidates(cells, grid);
    forall t | 0 <= t < |cs| ensures 0 <= cs[t] < |xs| {
      assert cs[t] in cs;
    }
    if |cells| > 0 {
      var init := cells[..|cells| - 1];
      NearInIsFilteredCandidates(init, grid, xs, x, r2);
      var bucket := grid[cells[|cells| - 1]];
      assert forall t :: 0 <= t < |bucket| ==> 0 <= bucket[t] < |xs|;
      FilterNearAppend(Candidates(init, grid), bucket, xs, x, r2);
    }
  }

  /** The filtered search finds exactly the indices in the buckets of the cells whose
      position is strictly closer to x than sqrt(r2). */
  lemma NearInMembers(cells: seq<int>, grid: seq<seq<int>>, xs: seq<Vec3>, x: Vec3, r2: real)
    requires CellsOf(cells, grid) && IndicesBelow(grid, |xs|)
    ensures forall j :: j in NearIn(cells, grid, xs, x, r2) <==>
      exists t :: 0 <= t < |cells| && j in grid[cells[t]] && 0 <= j < |xs| && Dist2(xs[j], x) < r2
  {
    NearInIsFilteredCandidates(cells, grid, xs, x, r2);
    FilterNearMembers(Candidates(cells, grid), xs, x, r2);
  }

  /** Every index the filtered search finds names one of the positions. */
  lemma NearInInRange(cells: seq<int>, grid: seq<seq<int>>, xs: seq<Vec3>, x: Vec3, r2: real)
    requires CellsOf(cells, grid) && IndicesBelow(grid, |xs|)
    ensures forall t :: 0 <= t < |NearIn(cells, grid, xs, x, r2)| ==> 0 <= NearIn(cells, grid, xs, x, r2)[t] < |xs|
  {
    NearInMembers(cells, grid, xs, x, r2);
    var found := NearIn(cells, grid, xs, x, r2);
    forall t | 0 <= t < |found| ensures 0 <= found[t] < |xs| {
      assert found[t] in found;
    }
  }

  /** With the grid freshly rebuilt and a 27-cell block that covers the search radius, the
      grid search finds exactly the bucketed points closer than r: the same set as a
      brute-force scan over all points. */
  lemma NeighborSearchIsExhaustive(g: ValidGrid, grid: seq<seq<int>>, xs: seq<Vec3>, x: Vec3, r: real)
    requires Bucketed(grid, xs, g) && g.Covers(r)
    ensures CellsOf(g.neighbors27(x, r), grid) && IndicesBelow(grid, |xs|)
    ensures forall j :: j in NearIn(g.neighbors27(x, r), grid, xs, x, r * r) <==>
      0 <= j < |xs| && g.IsInside(g.cellId(xs[j])) && Dist2(xs[j], x) < r * r
  {
    var cells := g.neighbors27(x, r);
    assert IndicesBelow(grid, |xs|) by {
      forall c, t | 0 <= c < |grid| && 0 <= t < |grid[c]| ensures 0 <= grid[c][t] < |xs| {
        assert grid[c] == Bucket(xs, g.cellId, c);
      }
    }
    var found := NearIn(cells, grid, xs, x, r * r);
    NearInMembers(cells, grid, xs, x, r * r);
    forall j | 0 <= j < |xs| && g.IsInside(g.cellId(xs[j])) && Dist2(xs[j], x) < r * r
      ensures j in found
    {
      var c := g.cellId(xs[j]);
      assert c in cells;
      var t :| 0 <= t < |cells| && cells[t] == c;
      assert j in grid[cells[t]];
    }
    forall j | j in found
      ensures 0 <= j < |xs| && g.IsInside(g.cellId(xs[j]))
    {
      var t :| 0 <= t < |cells| && j in grid[cells[t]] && 0 <= j < |xs| && Dist2(xs[j], x) < r * r;
      assert grid[cells[t]] == Bucket(xs, g.cellId, cells[t]);
    }
  }

  /** One bucket of the search: append to acc, in bucket order, the indices whose position
      is strictly closer to x than sqrt(r2). */
  method AppendNear(acc: seq<int>, bucket: seq<int>, xs: seq<Vec3>, x: Vec3, r2: real)
    returns (r: seq<int>)
    requires forall t :: 0 <= t < |bucket| ==> 0 <= bucket[t] < |xs|
    ensures r == acc + FilterNear(bucket, xs, x, r2)
  {
    r := acc;
    for j := 0 to |bucket|
      invariant r == acc + FilterNear(bucket[..j], xs, x, r2)
    {
      assert bucket[..j + 1][..j] == bucket[..j];
      var id := bucket[j];
      if Dist2(xs[id], x) < r2 {
        r := r + [id];
      }
    }
    assert bucket[..|bucket|] == bucket;
  }

  /** The loop of `getNearestNeighbor(i, radius)`: for each cell in turn, the boundary
      samples and then the fluid particles of its buckets that lie strictly within the
      radius, appended to two separate lists. */
  method SearchCells(cells: seq<int>, fluidGrid: seq<seq<int>>, boundaryGrid: seq<seq<int>>,
                     xs: seq<Vec3>, bxs: seq<Vec3>, x: Vec3, r2: real)
    returns (fluid: seq<int>, boundary: seq<int>)
    requires CellsOf(cells, fluidGrid) && CellsOf(cells, boundaryGrid)
    requires IndicesBelow(fluidGrid, |xs|) && IndicesBelow(boundaryGrid, |bxs|)
    ensures fluid == NearIn(cells, fluidGrid, xs, x, r2)
    ensures boundary == NearIn(cells, boundaryGrid, bxs, x, r2)
  {
    fluid, boundary := [], [];
    for i := 0 to |cells|
      invariant fluid == NearIn(cells[..i], fluidGrid, xs, x, r2)
      invariant boundary == NearIn(cells[..i], boundaryGrid, bxs, x, r2)
    {
      assert cells[..i + 1][..i] == cells[..i];
      var bCell := boundaryGrid[cells[i]];
      assert forall t :: 0 <= t < |bCell| ==> 0 <= bCell[t] < |bxs|;
      boundary := AppendNear(boundary, bCell, bxs, x, r2);
      var fCell := fluidGrid[cells[i]];
      assert forall t :: 0 <= t < |fCell| ==> 0 <= fCell[t] < |xs|;
      fluid := AppendNear(fluid, fCell, xs, x, r2);
    }
    assert cells[..|cells|] == cells;
  }

  /** The loop of the second `getNearestNeighbor` overload: every index of the buckets of
      the given cells, cell after cell, with no distance filter. */
  method GatherCells(cells: seq<int>, grid: seq<seq<int>>) returns (neighbor: seq<int>)
    requires CellsOf(cells, grid)
    ensures neighbor == Candidates(cells, grid)
  {
    neighbor := [];
    for i := 0 to |cells|
      invariant neighbor == Candidates(cells[..i], grid)
    {
      assert cells[..i + 1][..i] == cells[..i];
      var bucket := grid[cells[i]];
      for j := 0 to |bucket|
        invariant neighbor == Candidates(cells[..i], grid) + bucket[..j]
      {
        assert bucket[..j + 1] == bucket[..j] + [bucket[j]];
        neighbor := neighbor + [bucket[j]];
      }
      assert bucket[..|bucket|] == bucket;
    }
    assert cells[..|cells|] == cells;
  }

  /** The bucketing loop of `init` and `prepareGrid`: each index i of xs whose cell is in the
      grid is pushed onto that cell's bucket, in index order. */
  method AddToBuckets(grid: seq<seq<int>>, xs: seq<Vec3>, g: GridInfo) returns (r: seq<seq<int>>)
    requires |grid| == g.size
    ensures |r| == |grid|
    ensures forall c :: 0 <= c < |r| ==> r[c] == grid[c] + Bucket(xs, g.cellId, c)
  {
    r := grid;
    for i := 0 to |xs|
      invariant |r| == |grid|
      invariant forall c :: 0 <= c < |r| ==> r[c] == grid[c] + Bucket(xs[..i], g.cellId, c)
    {
      assert xs[..i + 1][..i] == xs[..i];
      var id := g.cellId(xs[i]);
      if g.IsInside(id) {
        r := r[id := r[id] + [i]];
      }
    }
    assert xs[..|xs|] == xs;
  }
}
