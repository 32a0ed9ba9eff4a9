/** The `System` object of the simulation: the particle and boundary store, the two bucket
    grids, the simulation counters, and the operations that fill, resequence, bucket and
    advance them.

    Arrays of particles are `seq` fields the methods reassign. Each phase loop of the step is
    proved against the sweep function of module Step that describes it, and the scene
    builders against the samplings of module Populate. */
module Hokusai {
  import opened Geometry
  import opened Particles
  import opened Physics
  import opened Pressure
  import opened Density
  import opened Surface
  import opened SpatialGrid
  import opened Morton
  import opened Step
  import opened Populate

  /** A particle source: the particles it emits at a given simulation time. */
  type ParticleSource = real -> seq<Particle>

  class System {
    var particles: seq<Particle>
    var boundaries: seq<Boundary>
    var particleNumber: int
    var boundaryNumber: int
    var fluidGrid: seq<seq<int>>      // per cell, the indices of the fluid particles in it
    var boundaryGrid: seq<seq<int>>   // per cell, the indices of the boundary samples in it
    var gridInfo: ValidGrid
    var countTime: nat                // number of steps taken
    var time: real
    var rhoAvgL: Average              // mean corrected density of the last solver pass
    var meanDensity: Average
    var densityFluctuation: Average
    var pSources: seq<ParticleSource>
    var gravity: Vec3

    const params: ValidParams
    const physics: Physics
    const mortonNumber: Cell3 -> int
    /** The grid helper built for an extent: `GridUtility::update(offset, scale, spacing)`. */
    const gridFor: (Vec3, Vec3, real) -> ValidGrid

    /** The invariant every operation keeps: the counters match the arrays and the buckets
        only hold indices of existing particles and samples. */
    ghost predicate Valid()
      reads this
    {
      && particleNumber == |particles|
      && boundaryNumber == |boundaries|
      && IndicesBelow(fluidGrid, |particles|)
      && IndicesBelow(boundaryGrid, |boundaries|)
    }

    /** Both grids have one bucket per cell of the current grid helper, as `init` sizes them;
        `prepareGrid` and the neighbour search index them by cell id. */
    ghost predicate GridReady()
      reads this
    {
      |fluidGrid| == gridInfo.size && |boundaryGrid| == gridInfo.size
    }

    /** The Morton key of a position: `mortonNumber(worldToGrid(x))`. */
    function ZKey(x: Vec3): int
      reads this`gridInfo
    {
      mortonNumber(gridInfo.worldToGrid(x))
    }

    /** The particles are in non-decreasing Morton order of their grid cells. */
    ghost predicate InZOrder(ps: seq<Particle>)
      reads this`gridInfo
    {
      forall a, b :: 0 <= a < b < |ps| ==> ZKey(ps[a].x) <= ZKey(ps[b].x)
    }

    /** The resequencing `prepareGrid` does at step count `count` on grid `g`: on every
        hundredth step `prepared` is `before` reordered by a permutation of its indices into
        non-decreasing Morton order of the cells; on every other step it is `before` unchanged. */
    ghost predicate SortSchedule(count: int, prepared: seq<Particle>, before: seq<Particle>, g: ValidGrid) {
      && (count % 100 != 0 ==> prepared == before)
      && (count % 100 == 0 ==> (exists perm :: Reordered(prepared, before, perm)))
      && (count % 100 == 0 ==> forall a, b :: 0 <= a < b < |prepared| ==>
            mortonNumber(g.worldToGrid(prepared[a].x)) <= mortonNumber(g.worldToGrid(prepared[b].x)))
    }

    /** `System()` followed by the parameter setup: an empty scene at time zero with the
        default gravity (0, -9.81, 0). */
    constructor (params: Params, physics: Physics, mortonNumber: Cell3 -> int,
                 gridFor: (Vec3, Vec3, real) -> ValidGrid, grid: ValidGrid)
      requires params.h > 0.0 && params.mass > 0.0
      ensures Valid()
      ensures particles == [] && boundaries == [] && pSources == []
      ensures fluidGrid == [] && boundaryGrid == [] && gridInfo == grid
      ensures countTime == 0 && time == 0.0 && gravity == Vec3(0.0, -9.81, 0.0)
      ensures rhoAvgL == Value(0.0) && meanDensity == Value(0.0) && densityFluctuation == Value(0.0)
      ensures this.params == params && this.physics == physics
      ensures this.mortonNumber == mortonNumber && this.gridFor == gridFor
    {
      this.params := params;
      this.physics := physics;
      this.mortonNumber := mortonNumber;
      this.gridFor := gridFor;
      particles, boundaries := [], [];
      particleNumber, boundaryNumber := 0, 0;
      fluidGrid, boundaryGrid := [], [];
      gridInfo := grid;
      countTime, time := 0, 0.0;
      rhoAvgL, meanDensity, densityFluctuation := Value(0.0), Value(0.0), Value(0.0);
      pSources := [];
      gravity := Vec3(0.0, -9.81, 0.0);
    }

    // ---------------------------------------------------------------- scene building

    /** `addFluidParticle(x, v)`. */
    method AddFluidParticle(x: Vec3, v: Vec3)
      requires Valid()
      modifies this`particles, this`particleNumber
      ensures Valid()
      ensures particles == old(particles) + [NewParticle(x, v)]
    {
      particles := particles + [NewParticle(x, v)];
      particleNumber := particleNumber + 1;
    }

    /** `addBoundaryParticle(x, v)`: a sample with volume weight zero until the boundary
        volumes are computed. */
    method AddBoundaryParticle(x: Vec3, v: Vec3)
      requires Valid()
      modifies this`boundaries, this`boundaryNumber
      ensures Valid()
      ensures boundaries == old(boundaries) + [Boundary(x, v, 0.0)]
    {
      boundaries := boundaries + [Boundary(x, v, 0.0)];
      boundaryNumber := boundaryNumber + 1;
    }

    /** `addParticleBox(offset, scale)`: particles at rest at offset + (i h, j h, k h) for
        every i < floor(scale.x / h), j < floor(scale.y / h), k < floor(scale.z / h), with k
        varying fastest. `Populate.ParticleBoxInsideExtent` shows they all lie inside the
        box. */
    method AddParticleBox(offset: Vec3, scale: Vec3)
      requires Valid()
      modifies this`particles, this`particleNumber
      ensures Valid()
      ensures particles == old(particles) + AtRest(ParticleBox(offset, scale, params.h))
    {
      var h := params.h;
      var widthSize, heightSize, depthSize := Span(scale.x, h), Span(scale.y, h), Span(scale.z, h);
      FillBox(BoxLattice(offset, h), Max0(widthSize), Max0(heightSize), Max0(depthSize));
    }

    /** `addParticleBox(width, height, depth, spacing)`: the same box anchored at the
        origin, with its own spacing. */
    method AddParticleBoxSpaced(width: real, height: real, depth: real, spacing: real)
      requires Valid() && spacing != 0.0
      modifies this`particles, this`particleNumber
      ensures Valid()
      ensures particles == old(particles) + AtRest(ParticleBox(Zero, Vec3(width, height, depth), spacing))
    {
      var widthSize, heightSize, depthSize := Span(width, spacing), Span(height, spacing), Span(depth, spacing);
      FillBox(BoxLattice(Zero, spacing), Max0(widthSize), Max0(heightSize), Max0(depthSize));
    }

    /** The outer loop of both `addParticleBox` overloads: one slab per i. */
    method FillBox(l: Lattice, widthSize: nat, heightSize: nat, depthSize: nat)
      requires Valid() && l.BoxLattice?
      modifies this`particles, this`particleNumber
      ensures Valid()
      ensures particles == old(particles) + AtRest(Blocks(l, widthSize, heightSize, depthSize))
    {
      for i := 0 to widthSize
        invariant Valid()
        invariant particles == old(particles) + AtRest(Blocks(l, i, heightSize, depthSize))
      {
        FillSlab(l, i, heightSize, depthSize);
        AtRestAppend(Blocks(l, i, heightSize, depthSize), Rows(l, i, heightSize, depthSize));
      }
    }

    /** The middle loop of `addParticleBox`: one row per j. */
    method FillSlab(l: Lattice, i: int, heightSize: nat, depthSize: nat)
      requires Valid() && l.BoxLattice?
      modifies this`particles, this`particleNumber
      ensures Valid()
      ensures particles == old(particles) + AtRest(Rows(l, i, heightSize, depthSize))
    {
      for j := 0 to heightSize
        invariant Valid()
        invariant particles == old(particles) + AtRest(Rows(l, i, j, depthSize))
      {
        FillRow(l, i, j, depthSize);
        AtRestAppend(Rows(l, i, j, depthSize), Cells(l, i, j, depthSize));
      }
    }

    /** The inner loop of `addParticleBox`: a particle at rest at offset + (i h, j h, k h)
        per k. */
    method FillRow(l: Lattice, i: int, j: int, depthSize: nat)
      requires Valid() && l.BoxLattice?
      modifies this`particles, this`particleNumber
      ensures Valid()
      ensures particles == old(particles) + AtRest(Cells(l, i, j, depthSize))
    {
      for k := 0 to depthSize
        invariant particleNumber == |particles| && |particles| >= |old(particles)|
        invariant particles == old(particles) + AtRest(Cells(l, i, j, k))
      {
        var x := l.offset.Plus(Vec3(i as real * l.h, j as real * l.h, k as real * l.h));
        assert x == Point(l, i, j, k);
        AtRestAppend(Cells(l, i, j, k), [x]);
        particles := particles + [NewParticle(x, Zero)];
        particleNumber := particleNumber + 1;
      }
    }

    /** `createParticleVolume(pos, width, height, depth, spacing, particleMax)`: layers of
        (floor(width / spacing) + 1) x (floor(depth / spacing) + 1) particles at rest, one
        spacing apart in y, until particleMax cells have been visited; the last layer is
        only filled up to particleMax. The height argument is unused. The loop only ends if
        a layer has cells, hence the second precondition. `Populate.VolumeSamplesCount`
        shows that exactly particleMax particles are added. */
    method CreateParticleVolume(pos: Vec3, width: real, height: real, depth: real, spacing: real, particleMax: int)
      requires Valid() && spacing != 0.0
      requires particleMax <= 0 || (Span(width, spacing) >= 0 && Span(depth, spacing) >= 0)
      modifies this`particles, this`particleNumber
      ensures Valid()
      ensures particles == old(particles) + AtRest(VolumeSamples(pos, width, depth, spacing, particleMax))
    {
      var widthSize := Span(width, spacing);
      var depthSize := Span(depth, spacing);
      var count := 0;
      var j := 0;
      ghost var l := VolumeLattice(pos, spacing);
      ghost var n2, n3 := Max0(widthSize + 1), Max0(depthSize + 1);
      ghost var perLayer := if particleMax <= 0 then 1 else PerLayer(width, depth, spacing);
      while count < particleMax
        invariant Valid() && j >= 0
        invariant particleMax > 0 ==> n2 * n3 == perLayer
        invariant count == |Blocks(l, j, n2, n3)|
        invariant particles == old(particles) + AtRest(Take(Blocks(l, j, n2, n3), particleMax))
        invariant j > 0 ==> (j - 1) * perLayer < particleMax
        decreases particleMax - count
      {
        BlocksLength(l, j, n2, n3);
        RowsLength(l, j, n2, n3);
        count := FillLayer(Blocks(l, j, n2, n3), old(particles), pos, spacing, j, widthSize, depthSize, particleMax, count);
        j := j + 1;
      }
      if particleMax > 0 {
        BlocksLength(l, j, n2, n3);
        LayersForIsUnique(particleMax, perLayer, j);
      }
    }

    /** The loop over i of `createParticleVolume`, in layer j. */
    method FillLayer(ghost visited: seq<Vec3>, ghost base: seq<Particle>, pos: Vec3, spacing: real, j: int,
                     widthSize: int, depthSize: int, particleMax: int, count0: int)
      returns (count: int)
      requires Valid() && widthSize >= -1 && depthSize >= -1
      requires count0 == |visited| && particles == base + AtRest(Take(visited, particleMax))
      modifies this`particles, this`particleNumber
      ensures Valid()
      ensures var layer := Rows(VolumeLattice(pos, spacing), j, widthSize + 1, depthSize + 1);
        count == |visited + layer| && particles == base + AtRest(Take(visited + layer, particleMax))
    {
      ghost var l := VolumeLattice(pos, spacing);
      count := count0;
      for i := 0 to widthSize + 1
        invariant Valid()
        invariant count == |visited + Rows(l, j, i, depthSize + 1)|
        invariant particles == base + AtRest(Take(visited + Rows(l, j, i, depthSize + 1), particleMax))
      {
        ghost var before := visited + Rows(l, j, i, depthSize + 1);
        count := FillVolumeRow(before, base, pos, spacing, j, i, depthSize, particleMax, count);
        AppendRow(visited, l, j, i, depthSize + 1);
      }
    }

    /** The loop over k of `createParticleVolume`, in layer j and row i: a particle at rest at
        pos + (i, j, k) * spacing per k, as long as fewer than particleMax cells have been
        visited. */
    method FillVolumeRow(ghost visited: seq<Vec3>, ghost base: seq<Particle>, pos: Vec3, spacing: real,
                         j: int, i: int, depthSize: int, particleMax: int, count0: int)
      returns (count: int)
      requires Valid() && depthSize >= -1
      requires count0 == |visited| && particles == base + AtRest(Take(visited, particleMax))
      modifies this`particles, this`particleNumber
      ensures Valid()
      ensures var row := Cells(VolumeLattice(pos, spacing), j, i, depthSize + 1);
        count == |visited + row| && particles == base + AtRest(Take(visited + row, particleMax))
    {
      var l := VolumeLattice(pos, spacing);
      count := count0;
      for k := 0 to depthSize + 1
        invariant particleNumber == |particles| && |particles| >= |old(particles)|
        invariant count == |visited + Cells(l, j, i, k)|
        invariant particles == base + AtRest(Take(visited + Cells(l, j, i, k), particleMax))
      {
        var x := Point(l, j, i, k);  // pos + (i, j, k) * spacing
        ghost var seen := visited + Cells(l, j, i, k);
        AppendCell(visited, l, j, i, k);
        count := VisitVolumeCell(seen, base, x, particleMax, count);
      }
    }

    /** The body of the innermost loop of `createParticleVolume`: the cell at x is added as a
        particle at rest while fewer than particleMax cells have been visited, and counted
        either way. */
    method VisitVolumeCell(ghost visited: seq<Vec3>, ghost base: seq<Particle>, x: Vec3, particleMax: int, count0: int)
      returns (count: int)
      requires particleNumber == |particles|
      requires count0 == |visited| && particles == base + AtRest(Take(visited, particleMax))
      modifies this`particles, this`particleNumber
      ensures particleNumber == |particles| && |particles| >= |old(particles)|
      ensures count == count0 + 1 && particles == base + AtRest(Take(visited + [x], particleMax))
    {
      TakeAppendOne(visited, x, particleMax);
      if count0 < particleMax {
        AtRestAppend(Take(visited, particleMax), [x]);
        particles := particles + [NewParticle(x, Zero)];
        particleNumber := particleNumber + 1;
      }
      count := count0 + 1;
    }

    /** `addBoundaryBox(offset, scale)`: six faces sampled every h, corners and edges
        included, followed by the grid helper's update to the box [offset, offset + scale]
        grown by 2h on every side with cells of 2h. As the code is written, each face sits on
        its plane of the box but its in-plane coordinates are i h and j h from the world
        origin (`Populate.BoundaryBoxAsWritten`), so a box away from the origin is not
        enclosed by its own faces (`Populate.AsWrittenBoxLeavesItsExtent`);
        `Populate.BoundaryBox` is the placement measured from the offset. */
    method AddBoundaryBox(offset: Vec3, scale: Vec3)
      requires Valid()
      modifies this`boundaries, this`boundaryNumber, this`gridInfo
      ensures Valid()
      ensures boundaries == old(boundaries) + Walls(BoundaryBoxAsWritten(offset, scale, params.h))
      ensures gridInfo == gridFor(offset.Minus(Splat(2.0 * params.h)), scale.Plus(Splat(4.0 * params.h)), 2.0 * params.h)
    {
      AddBoundaryFaces(offset, scale);
      var h := params.h;
      gridInfo := gridFor(offset.Minus(Splat(2.0 * h)), scale.Plus(Splat(4.0 * h)), 2.0 * h);
    }

    /** The six plane loops of `addBoundaryBox`, in order. */
    method AddBoundaryFaces(offset: Vec3, scale: Vec3)
      requires Valid()
      modifies this`boundaries, this`boundaryNumber
      ensures Valid()
      ensures boundaries == old(boundaries) + Walls(BoundaryBoxAsWritten(offset, scale, params.h))
    {
      var h := params.h;
      for f := 0 to 6
        invariant Valid()
        invariant boundaries == old(boundaries) + Walls(FacesUpTo(Zero, offset, scale, h, f))
      {
        AddBoundaryFace(old(boundaries), offset, scale, f);
      }
    }

    /** One face of `addBoundaryBox`: its samples follow the faces before it. */
    method AddBoundaryFace(ghost base: seq<Boundary>, offset: Vec3, scale: Vec3, f: nat)
      requires Valid() && boundaries == base + Walls(FacesUpTo(Zero, offset, scale, params.h, f))
      modifies this`boundaries, this`boundaryNumber
      ensures Valid()
      ensures boundaries == base + Walls(FacesUpTo(Zero, offset, scale, params.h, f + 1))
    {
      AddBoundaryPlane(FaceOrder(f), offset, scale);
      WallsAppend(FacesUpTo(Zero, offset, scale, params.h, f), FaceOfBox(FaceOrder(f), Zero, offset, scale, params.h));
    }

    /** One of the six plane loops of `addBoundaryBox`: i from 0 to its face's first step
        count and j from 0 to its second, both inclusive; the sample sits on the face's plane
        of the box, at i h and j h from the world origin along the other two axes. */
    method AddBoundaryPlane(face: Face, offset: Vec3, scale: Vec3)
      requires Valid()
      modifies this`boundaries, this`boundaryNumber
      ensures Valid()
      ensures boundaries == old(boundaries) + Walls(FaceOfBox(face, Zero, offset, scale, params.h))
    {
      var h := params.h;
      var l := FaceLattice(face, Zero, offset, scale, h);
      var (n1, n2) := FaceSteps(face, scale, h);
      for i := 0 to Max0(n1 + 1)
        invariant Valid()
        invariant boundaries == old(boundaries) + Walls(Rows(l, 0, i, Max0(n2 + 1)))
      {
        AddBoundaryRow(old(boundaries), l, i, Max0(n2 + 1));
      }
    }

    /** One row of a plane: its samples follow the rows before it. */
    method AddBoundaryRow(ghost base: seq<Boundary>, l: Lattice, i: nat, count: nat)
      requires Valid() && l.FaceLattice?
      requires boundaries == base + Walls(Rows(l, 0, i, count))
      modifies this`boundaries, this`boundaryNumber
      ensures Valid()
      ensures boundaries == base + Walls(Rows(l, 0, i + 1, count))
    {
      AddBoundaryLine(l, i, count);
      WallsAppend(Rows(l, 0, i, count), Cells(l, 0, i, count));
    }

    /** The inner loop of a plane of `addBoundaryBox`: a sample per j. */
    method AddBoundaryLine(l: Lattice, i: int, count: nat)
      requires Valid() && l.FaceLattice?
      modifies this`boundaries, this`boundaryNumber
      ensures Valid()
      ensures boundaries == old(boundaries) + Walls(Cells(l, 0, i, count))
    {
      for j := 0 to count
        invariant boundaryNumber == |boundaries| && |boundaries| >= |old(boundaries)|
        invariant boundaries == old(boundaries) + Walls(Cells(l, 0, i, j))
      {
        var x := Point(l, 0, i, j);
        WallsAppend(Cells(l, 0, i, j), [x]);
        boundaries := boundaries + [Boundary(x, Zero, 0.0)];
        boundaryNumber := boundaryNumber + 1;
      }
    }

    /** `translateParticles(t)`: every particle moved by t. */
    method TranslateParticles(t: Vec3)
      requires Valid()
      modifies this`particles
      ensures Valid()
      ensures particles == Translated(old(particles), t)
    {
      for i := 0 to |particles|
        invariant |particles| == |old(particles)| && Valid()
        invariant forall k :: 0 <= k < i ==> particles[k] == old(particles)[k].(x := old(particles)[k].x.Plus(t))
        invariant forall k :: i <= k < |particles| ==> particles[k] == old(particles)[k]
      {
        particles := particles[i := particles[i].(x := particles[i].x.Plus(t))];
      }
    }

    /** `translateBoundaries(t)`: every boundary sample moved by t. The boundary grid is not
        rebuilt. */
    method TranslateBoundaries(t: Vec3)
      requires Valid()
      modifies this`boundaries
      ensures Valid()
      ensures boundaries == TranslatedBoundaries(old(boundaries), t)
    {
      for i := 0 to |boundaries|
        invariant |boundaries| == |old(boundaries)| && Valid()
        invariant forall k :: 0 <= k < i ==> boundaries[k] == old(boundaries)[k].(x := old(boundaries)[k].x.Plus(t))
        invariant forall k :: i <= k < |boundaries| ==> boundaries[k] == old(boundaries)[k]
      {
        boundaries := boundaries[i := boundaries[i].(x := boundaries[i].x.Plus(t))];
      }
    }

    /** `addParticleSource(s)`. */
    method AddParticleSource(s: ParticleSource)
      modifies this`pSources
      ensures pSources == old(pSources) + [s]
    {
      pSources := pSources + [s];
    }

    /** `setGravity(g)`. */
    method SetGravity(g: Vec3)
      modifies this`gravity
      ensures gravity == g
    {
      gravity := g;
    }

    /** `applySources()`: what every source emits at the current time, source by source and
        in emission order, appended to the particles. */
    method ApplySources()
      requires Valid()
      modifies this`particles, this`particleNumber
      ensures Valid()
      ensures particles == old(particles) + Emitted(pSources, time)
    {
      for s := 0 to |pSources|
        invariant Valid()
        invariant particles == old(particles) + Emitted(pSources[..s], time)
      {
        assert pSources[..s + 1][..s] == pSources[..s];
        AppendEmitted(pSources[s](time));
      }
      assert pSources[..|pSources|] == pSources;
    }

    /** The inner loop of `applySources`: each particle one source hands back is pushed in
        order, and the count follows. */
    method AppendEmitted(pNew: seq<Particle>)
      requires Valid()
      modifies this`particles, this`particleNumber
      ensures Valid()
      ensures particles == old(particles) + pNew
    {
      for k := 0 to |pNew|
        invariant Valid()
        invariant particles == old(particles) + pNew[..k]
      {
        assert pNew[..k + 1] == pNew[..k] + [pNew[k]];
        particles := particles + [pNew[k]];
        particleNumber := particleNumber + 1;
      }
      assert pNew[..|pNew|] == pNew;
    }

    /** `applySinks()`: sinks are not implemented; nothing changes. */
    method ApplySinks()
      ensures unchanged(this)
    {
    }

    // ---------------------------------------------------------------- resequencing

    /** `mortonSort()`: the particles reordered by the Morton key of their grid cell. The new
        array is the old one under a permutation of the indices, whole particles moving
        together, with non-decreasing keys; equal keys may come in any order. */
    method MortonSort()
      requires Valid()
      modifies this`particles
      ensures Valid()
      ensures |particles| == |old(particles)|
      ensures multiset(particles) == multiset(old(particles))
      ensures exists perm :: Reordered(particles, old(particles), perm)
      ensures InZOrder(particles)
    {
      ghost var keys := Keys();
      var particleZindex := ZIndices();
      particleZindex := SortPairs(particleZindex);
      SortedPairsPermute(keys, particleZindex);
      Reorder(particleZindex);
      ghost var perm := MapSeq(particleZindex, (e: (int, int)) => e.0);
      assert Reordered(particles, old(particles), perm);
      PermutedMultiset(old(particles), particles, perm);
    }

    /** The Morton keys of the particles' grid cells, in index order. */
    ghost function Keys(): (r: seq<int>)
      reads this
      ensures |r| == |particles| && forall i :: 0 <= i < |particles| ==> r[i] == ZKey(particles[i].x)
    {
      seq(|particles|, i reads this requires 0 <= i < |particles| => ZKey(particles[i].x))
    }

    /** The first loop of `mortonSort`: the pair (i, key of particle i) for every particle, in
        index order. */
    method ZIndices() returns (particleZindex: seq<(int, int)>)
      requires Valid()
      ensures particleZindex == ZIndexPairs(Keys())
    {
      particleZindex := [];
      for i := 0 to particleNumber
        invariant |particleZindex| == i
        invariant forall t :: 0 <= t < i ==> particleZindex[t] == (t, ZKey(particles[t].x))
      {
        var zindex := mortonNumber(gridInfo.worldToGrid(particles[i].x));
        particleZindex := particleZindex + [(i, zindex)];
      }
    }

    /** The last loop of `mortonSort`: position i receives the particle the i-th sorted pair
        names, copied from the array as it was before the loop. */
    method Reorder(particleZindex: seq<(int, int)>)
      requires |particleZindex| == |particles|
      requires forall t :: 0 <= t < |particleZindex| ==> 0 <= particleZindex[t].0 < |particles|
      modifies this`particles
      ensures |particles| == |old(particles)|
      ensures forall t :: 0 <= t < |particles| ==> particles[t] == old(particles)[particleZindex[t].0]
    {
      var oldParticles := particles;
      for i := 0 to |particleZindex|
        invariant |particles| == |oldParticles|
        invariant forall t :: 0 <= t < i ==> particles[t] == oldParticles[particleZindex[t].0]
        invariant forall t :: i <= t < |particles| ==> particles[t] == oldParticles[t]
      {
        var paire := particleZindex[i];
        if i != paire.0 {
          particles := particles[i := oldParticles[paire.0]];
        }
      }
    }

    // ---------------------------------------------------------------- grids and neighbours

    /** `init()`: the particles resequenced, the boundary buckets sized to the grid and the
        samples bucketed into them (buckets already present are kept, as `resize` keeps
        them), the fluid buckets sized, the grid prepared, and every particle flagged as on
        the surface. */
    method Init() returns (ghost prepared: seq<Particle>)
      requires Valid()
      modifies this`particles, this`fluidGrid, this`boundaryGrid
      ensures Valid() && GridReady()
      ensures forall c :: 0 <= c < gridInfo.size ==>
        boundaryGrid[c] == Resized(old(boundaryGrid), gridInfo.size)[c] + Bucket(BoundaryPositions(boundaries), gridInfo.cellId, c)
      ensures old(boundaryGrid) == [] ==> Bucketed(boundaryGrid, BoundaryPositions(boundaries), gridInfo)
      ensures multiset(prepared) == multiset(old(particles)) && InZOrder(prepared)
      ensures Bucketed(fluidGrid, Positions(prepared), gridInfo) && NeighborsInRange(particles, |boundaries|)
      ensures particles == AllSurface(Searched(prepared, boundaries, fluidGrid, boundaryGrid, gridInfo, 2.0 * params.h))
    {
      MortonSort();
      BucketBoundaries();
      fluidGrid := Resized(fluidGrid, gridInfo.size);
      prepared := PrepareGrid();
      MarkAllSurface();
    }

    /** The boundary part of `init`: the boundary buckets resized to the grid, then each
        sample whose cell is in the grid pushed onto that cell's bucket, in index order. */
    method BucketBoundaries()
      requires Valid()
      modifies this`boundaryGrid
      ensures Valid() && |boundaryGrid| == gridInfo.size
      ensures forall c :: 0 <= c < gridInfo.size ==>
        boundaryGrid[c] == Resized(old(boundaryGrid), gridInfo.size)[c] + Bucket(BoundaryPositions(boundaries), gridInfo.cellId, c)
      ensures old(boundaryGrid) == [] ==> Bucketed(boundaryGrid, BoundaryPositions(boundaries), gridInfo)
    {
      boundaryGrid := Resized(boundaryGrid, gridInfo.size);
      ghost var sized := boundaryGrid;
      boundaryGrid := AddToBuckets(boundaryGrid, BoundaryPositions(boundaries), gridInfo);
      forall c, t | 0 <= c < |boundaryGrid| && 0 <= t < |boundaryGrid[c]|
        ensures 0 <= boundaryGrid[c][t] < |boundaries|
      {
        var bucket := Bucket(BoundaryPositions(boundaries), gridInfo.cellId, c);
        if t >= |sized[c]| {
          assert boundaryGrid[c][t] == bucket[t - |sized[c]|];
        }
      }
    }

    /** The last loop of `init`: every particle flagged as on the surface. */
    method MarkAllSurface()
      requires Valid()
      modifies this`particles
      ensures Valid() && particles == AllSurface(old(particles))
    {
      for i := 0 to |particles|
        invariant |particles| == |old(particles)|
        invariant forall k :: 0 <= k < i ==> particles[k] == old(particles)[k].(isSurface := true)
        invariant forall k :: i <= k < |particles| ==> particles[k] == old(particles)[k]
      {
        particles := particles[i := particles[i].(isSurface := true)];
      }
    }

    /** `prepareGrid()`: every hundredth step (the counter is a multiple of 100) the particles
        are resequenced first; then the fluid buckets are rebuilt from the positions and every
        particle's neighbour lists are searched with radius 2h. `prepared` is the array the
        buckets are built from. */
    method PrepareGrid() returns (ghost prepared: seq<Particle>)
      requires Valid() && GridReady()
      modifies this`particles, this`fluidGrid
      ensures Valid() && GridReady()
      ensures countTime % 100 != 0 ==> prepared == old(particles)
      ensures countTime % 100 == 0 ==> (exists perm :: Reordered(prepared, old(particles), perm)) && InZOrder(prepared)
      ensures multiset(prepared) == multiset(old(particles)) && NeighborsInRange(particles, |boundaries|)
      ensures Bucketed(fluidGrid, Positions(prepared), gridInfo)
      ensures particles == Searched(prepared, boundaries, fluidGrid, boundaryGrid, gridInfo, 2.0 * params.h)
    {
      if countTime % 100 == 0 {
        MortonSort();
      }
      prepared := particles;
      RebuildFluidGrid();
      SearchNeighbors();
    }

    /** The clearing and bucketing loops of `prepareGrid`. */
    method RebuildFluidGrid()
      requires Valid() && GridReady()
      modifies this`fluidGrid
      ensures Valid() && GridReady()
      ensures Bucketed(fluidGrid, Positions(particles), gridInfo)
    {
      for i := 0 to |fluidGrid|
        invariant |fluidGrid| == |old(fluidGrid)|
        invariant forall c :: 0 <= c < i ==> fluidGrid[c] == []
        invariant forall c :: i <= c < |fluidGrid| ==> fluidGrid[c] == old(fluidGrid)[c]
      {
        fluidGrid := fluidGrid[i := []];
      }
      fluidGrid := AddToBuckets(fluidGrid, Positions(particles), gridInfo);
      assert forall c :: 0 <= c < |fluidGrid| ==> fluidGrid[c] == Bucket(Positions(particles), gridInfo.cellId, c);
    }

    /** The last loop of `prepareGrid`: `getNearestNeighbor(i, 2h)` for every particle. */
    method SearchNeighbors()
      requires Valid() && GridReady()
      modifies this`particles
      ensures Valid()
      ensures particles == Searched(old(particles), boundaries, fluidGrid, boundaryGrid, gridInfo, 2.0 * params.h)
    {
      ghost var ps := particles;
      ghost var xs := Positions(ps);
      for i := 0 to particleNumber
        invariant Valid() && |particles| == |ps| && Positions(particles) == xs
        invariant forall k :: 0 <= k < i ==>
          particles[k] == WithNeighbors(ps[k], xs, BoundaryPositions(boundaries), fluidGrid, boundaryGrid, gridInfo, 2.0 * params.h)
        invariant forall k :: i <= k < |ps| ==> particles[k] == ps[k]
      {
        GetNearestNeighbor(i, 2.0 * params.h);
        assert Positions(particles) == xs;
      }
    }

    /** `getNearestNeighbor(i, radius)`: particle i's lists replaced by the search of the
        buckets of the cells around it. */
    method GetNearestNeighbor(i: int, radius: real)
      requires Valid() && GridReady() && 0 <= i < |particles|
      modifies this`particles
      ensures particles == old(particles)[i := WithNeighbors(old(particles)[i], Positions(old(particles)),
        BoundaryPositions(boundaries), fluidGrid, boundaryGrid, gridInfo, radius)]
    {
      var fluid, boundary := SearchAround(particles[i].x, radius);
      particles := particles[i := particles[i].(fluidNeighbor := fluid, boundaryNeighbor := boundary)];
    }

    /** The search of `getNearestNeighbor(i, radius)` around the position x of particle i: the
        boundary samples and the fluid particles of the buckets of the cells around x that lie
        strictly within the radius. */
    method SearchAround(x: Vec3, radius: real) returns (fluid: seq<int>, boundary: seq<int>)
      requires Valid() && GridReady()
      ensures fluid == NearIn(gridInfo.neighbors27(x, radius), fluidGrid, Positions(particles), x, radius * radius)
      ensures boundary == NearIn(gridInfo.neighbors27(x, radius), boundaryGrid, BoundaryPositions(boundaries), x, radius * radius)
    {
      var neighborCell := gridInfo.neighbors27(x, radius);
      fluid, boundary := SearchCells(neighborCell, fluidGrid, boundaryGrid, Positions(particles),
                                     BoundaryPositions(boundaries), x, radius * radius);
    }

    /** `getNearestNeighbor(neighbor, grid, x)`: every index in the buckets of the cells
        around x, with the grid spacing as radius and no distance filter. */
    method GetNeighborCandidates(grid: seq<seq<int>>, x: Vec3) returns (neighbor: seq<int>)
      requires |grid| == gridInfo.size
      ensures neighbor == Candidates(gridInfo.neighbors27(x, gridInfo.spacing), grid)
    {
      var neighborCell := gridInfo.neighbors27(x, gridInfo.spacing);
      neighbor := GatherCells(neighborCell, grid);
    }

    // ---------------------------------------------------------------- density and surface

    /** `computeRho(i)`: the kernel-weighted sum over the fluid and then the boundary
        neighbours of particle i, stored in its density. */
    method ComputeRho(i: int)
      requires 0 <= i < |particles| && NeighborsInRange(particles, |boundaries|)
      modifies this`particles
      ensures particles == old(particles)[i := old(particles)[i].(rho := Rho(old(particles), boundaries, i, params.mass, physics.kernel))]
    {
      var fluid := FluidSum(i);
      var boundary := BoundarySum(i);
      particles := particles[i := particles[i].(rho := fluid + boundary)];
    }

    /** The first loop of `computeRho(i)`: mass times the kernel value over the fluid
        neighbours. */
    method FluidSum(i: int) returns (rho: real)
      requires 0 <= i < |particles| && NeighborsInRange(particles, |boundaries|)
      ensures rho == FluidDensity(Positions(particles), particles[i].x, particles[i].fluidNeighbor, params.mass, physics.kernel)
    {
      var pi := particles[i];
      ghost var xs := Positions(particles);
      var fneighbors := pi.fluidNeighbor;
      rho := 0.0;
      for t := 0 to |fneighbors|
        invariant rho == FluidDensity(xs, pi.x, fneighbors[..t], params.mass, physics.kernel)
      {
        assert fneighbors[..t + 1][..t] == fneighbors[..t];
        var j := fneighbors[t];
        rho := rho + params.mass * physics.kernel(pi.x.Minus(particles[j].x));
      }
      assert fneighbors[..|fneighbors|] == fneighbors;
    }

    /** The second loop of `computeRho(i)`: the kernel value weighted by psi over the
        boundary neighbours. */
    method BoundarySum(i: int) returns (rho: real)
      requires 0 <= i < |particles| && NeighborsInRange(particles, |boundaries|)
      ensures rho == BoundaryDensity(boundaries, particles[i].x, particles[i].boundaryNeighbor, physics.kernel)
    {
      var pi := particles[i];
      var bneighbors := pi.boundaryNeighbor;
      rho := 0.0;
      for t := 0 to |bneighbors|
        invariant rho == BoundaryDensity(boundaries, pi.x, bneighbors[..t], physics.kernel)
      {
        assert bneighbors[..t + 1][..t] == bneighbors[..t];
        var j := bneighbors[t];
        rho := rho + physics.kernel(pi.x.Minus(boundaries[j].x)) * boundaries[j].psi;
      }
      assert bneighbors[..|bneighbors|] == bneighbors;
    }

    /** The density loop of `predictAdvection` and `getSurfaceParticle`. */
    method ComputeDensities()
      requires Valid() && NeighborsInRange(particles, |boundaries|)
      modifies this`particles
      ensures Valid() && NeighborsInRange(particles, |boundaries|)
      ensures particles == RhoSweep(old(particles), old(boundaries), params.mass, physics.kernel, |old(particles)|)
    {
      ghost var ps := particles;
      for i := 0 to particleNumber
        invariant particles == RhoSweep(ps, boundaries, params.mass, physics.kernel, i)
      {
        DensityStep(ps, i);
      }
      assert particles == RhoSweep(ps, boundaries, params.mass, physics.kernel, |ps|);
      NeighborsKept(ps, particles, |boundaries|);
    }

    /** One turn of the density loop: `computeRho(i)` after the first i densities. */
    method DensityStep(ghost ps: seq<Particle>, i: int)
      requires NeighborsInRange(ps, |boundaries|) && 0 <= i < |ps|
      requires particles == RhoSweep(ps, boundaries, params.mass, physics.kernel, i)
      modifies this`particles
      ensures particles == RhoSweep(ps, boundaries, params.mass, physics.kernel, i + 1)
    {
      NeighborsKept(ps, particles, |boundaries|);
      ComputeRho(i);
    }

    /** The normal loop of `predictAdvection` and `getSurfaceParticle`: `computeNormal(i)`
        for every particle in turn. */
    method ComputeNormals()
      requires Valid()
      modifies this`particles
      ensures Valid()
      ensures particles == NormalSweep(old(particles), physics, |old(particles)|)
    {
      ghost var ps := particles;
      for i := 0 to particleNumber
        invariant particles == NormalSweep(ps, physics, i)
      {
        particles := particles[i := particles[i].(n := physics.normal(particles, i))];
      }
    }

    /** `computeSurfaceParticle()`: every flag cleared; the seeds and their fluid neighbours
        collected; those flagged. The final count of the source is never used and is not
        modelled. */
    method ComputeSurfaceParticle()
      requires Valid() && NeighborsInRange(particles, |boundaries|)
      modifies this`particles
      ensures Valid()
      ensures particles == Surfaced(old(particles), params.particlePerCell)
    {
      ghost var ps := particles;
      for i := 0 to |particles|
        invariant |particles| == |ps|
        invariant forall k :: 0 <= k < i ==> particles[k] == ps[k].(isSurface := false)
        invariant forall k :: i <= k < |ps| ==> particles[k] == ps[k]
      {
        particles := particles[i := particles[i].(isSurface := false)];
      }
      ghost var cleared := particles;
      var surfaceParticles := CollectSurface(particles, params.particlePerCell);
      forall k | k in surfaceParticles
        ensures 0 <= k < |ps| && OnSurface(ps, params.particlePerCell, k)
      {
        OnSurfaceIgnoresFlags(ps, cleared, params.particlePerCell, k);
        SurfaceIndicesInRange(ps, |boundaries|, params.particlePerCell, k);
      }
      // The source walks the set in increasing order; every member is an index in range.
      for pId := 0 to |particles|
        invariant |particles| == |ps|
        invariant forall k :: 0 <= k < |ps| ==> particles[k] == ps[k].(isSurface := k in surfaceParticles && k < pId)
      {
        if pId in surfaceParticles {
          particles := particles[pId := particles[pId].(isSurface := true)];
        }
      }
      forall k | 0 <= k < |ps|
        ensures particles[k] == Surfaced(ps, params.particlePerCell)[k]
      {
        OnSurfaceIgnoresFlags(ps, cleared, params.particlePerCell, k);
      }
    }

    /** The copy loop of `getSurfaceParticle`. */
    static method CollectSurfaceCopies(ps: seq<Particle>) returns (surfaceParticles: seq<Particle>)
      ensures surfaceParticles == SurfaceParticles(ps, 0.05)
    {
      surfaceParticles := [];
      for i := 0 to |ps|
        invariant surfaceParticles == SurfaceParticles(ps[..i], 0.05)
      {
        assert ps[..i + 1][..i] == ps[..i];
        if IsSurfaceParticle(ps[i], 0.05) {
          surfaceParticles := surfaceParticles + [ps[i]];
        }
      }
      assert ps[..|ps|] == ps;
    }

    /** `getSurfaceParticle()`: densities and normals recomputed, then a copy of every particle
        whose squared normal exceeds 0.05, in array order. */
    method GetSurfaceParticle() returns (surfaceParticles: seq<Particle>)
      requires Valid() && NeighborsInRange(particles, |boundaries|)
      modifies this`particles
      ensures Valid()
      ensures particles == NormalSweep(RhoSweep(old(particles), boundaries, params.mass, physics.kernel, |old(particles)|),
                                       physics, |old(particles)|)
      ensures surfaceParticles == SurfaceParticles(particles, 0.05)
    {
      ComputeDensities();
      ComputeNormals();
      surfaceParticles := CollectSurfaceCopies(particles);
    }
  
    // ---------------------------------------------------------------- prediction

    /** `computeAdvectionForces(i)`: the pair forces on particle i plus its weight. */
    method ComputeAdvectionForces(i: int)
      requires 0 <= i < |particles|
      modifies this`particles
      ensures particles == old(particles)[i := old(particles)[i].(
        fAdv := physics.advectionForce(old(particles), boundaries, i).Plus(gravity.Scale(params.mass)))]
    {
      var fAdv := physics.advectionForce(particles, boundaries, i);
      fAdv := fAdv.Plus(gravity.Scale(params.mass));
      particles := particles[i := particles[i].(fAdv := fAdv)];
    }

    /** `predictVelocity(i)`: the velocity advanced by dt under the advection force. */
    method PredictVelocity(i: int)
      requires 0 <= i < |particles| && params.mass > 0.0
      modifies this`particles
      ensures particles == old(particles)[i := old(particles)[i].(
        vAdv := old(particles)[i].v.Plus(old(particles)[i].fAdv.Scale(params.dt / params.mass)))]
    {
      var pi := particles[i];
      particles := particles[i := pi.(vAdv := pi.v.Plus(pi.fAdv.Scale(params.dt / params.mass)))];
    }

    /** `computeDii(i)`: both parts of the self-response coefficient. */
    method ComputeDii(i: int)
      requires 0 <= i < |particles|
      modifies this`particles
      ensures var d := physics.dii(old(particles), boundaries, i);
        particles == old(particles)[i := old(particles)[i].(diiFluid := d.0, diiBoundary := d.1)]
    {
      var d := physics.dii(particles, boundaries, i);
      particles := particles[i := particles[i].(diiFluid := d.0, diiBoundary := d.1)];
    }

    /** One turn of the third loop of `predictAdvection`. */
    method AdvectStep(i: int)
      requires 0 <= i < |particles| && params.mass > 0.0
      modifies this`particles
      ensures particles == AdvectParticle(old(particles), boundaries, physics, gravity, params.mass, params.dt, i)
    {
      ghost var q := particles;
      ComputeAdvectionForces(i);
      PredictVelocity(i);
      ghost var predicted := particles;
      ComputeDii(i);
      assert predicted == q[i := predicted[i]];
      assert particles == predicted[i := predicted[i].(diiFluid := physics.dii(predicted, boundaries, i).0,
                                                       diiBoundary := physics.dii(predicted, boundaries, i).1)];
    }

    /** `predictRho(i)`: the density predicted from the advected velocities. */
    method PredictRho(i: int)
      requires 0 <= i < |particles|
      modifies this`particles
      ensures particles == old(particles)[i := old(particles)[i].(
        rhoAdv := AdvancedDensity(old(particles)[i].rho, params.dt, physics.densityRate(old(particles), boundaries, i)))]
    {
      var rate := physics.densityRate(particles, boundaries, i);
      var rhoAdv := particles[i].rho + params.dt * rate;
      particles := particles[i := particles[i].(rhoAdv := rhoAdv)];
      assert rate == physics.densityRate(old(particles), boundaries, i);
      assert rhoAdv == AdvancedDensity(old(particles)[i].rho, params.dt, physics.densityRate(old(particles), boundaries, i));
    }

    /** `initializePressure(i)`: the solver starts from half of the previous pressure. */
    method InitializePressure(i: int)
      requires 0 <= i < |particles|
      modifies this`particles
      ensures particles == old(particles)[i := WarmStart(old(particles)[i])]
      ensures 2.0 * particles[i].pL == old(particles)[i].p
    {
      particles := particles[i := particles[i].(pL := 0.5 * particles[i].p)];
    }

    /** `computeAii(i)`: the diagonal pressure coefficient. */
    method ComputeAii(i: int)
      requires 0 <= i < |particles|
      modifies this`particles
      ensures particles == old(particles)[i := old(particles)[i].(aii := physics.aii(old(particles), boundaries, i))]
    {
      var aii := physics.aii(particles, boundaries, i);
      particles := particles[i := particles[i].(aii := aii)];
    }

    /** One turn of the last loop of `predictAdvection`. */
    method PredictStep(i: int)
      requires 0 <= i < |particles|
      modifies this`particles
      ensures particles == PredictParticle(old(particles), boundaries, physics, params.dt, i)
    {
      ghost var q := particles;
      PredictRho(i);
      InitializePressure(i);
      ghost var started := particles;
      ComputeAii(i);
      assert started == q[i := started[i]];
    }

    /** The advection loop of `predictAdvection`. */
    method AdvectAll()
      requires Valid()
      modifies this`particles
      ensures Valid()
      ensures particles == AdvectSweep(old(particles), boundaries, physics, gravity, params.mass, params.dt, |old(particles)|)
    {
      ghost var ps := particles;
      for i := 0 to particleNumber
        invariant particles == AdvectSweep(ps, boundaries, physics, gravity, params.mass, params.dt, i)
      {
        AdvectStep(i);
      }
    }

    /** The prediction loop of `predictAdvection`. */
    method PredictAll()
      requires Valid()
      modifies this`particles
      ensures Valid()
      ensures particles == PredictSweep(old(particles), boundaries, physics, params.dt, |old(particles)|)
    {
      ghost var ps := particles;
      for i := 0 to particleNumber
        invariant particles == PredictSweep(ps, boundaries, physics, params.dt, i)
      {
        PredictStep(i);
      }
    }

    /** `predictAdvection()`: densities, normals and surface flags, then the advection forces,
        predicted velocities and self-response coefficients, then the predicted densities, the
        solver's starting pressures and the diagonal coefficients, one loop after the other.
        `Step.Predicted` says which fields change and how. */
    method PredictAdvection()
      requires Valid() && NeighborsInRange(particles, |boundaries|)
      modifies this`particles
      ensures Valid()
      ensures particles == Predicted(old(particles), old(boundaries), physics, params, old(gravity))
    {
      ghost var ps, bs, g := particles, boundaries, gravity;
      Classify();
      assert boundaries == bs && gravity == g;
      ghost var classified := particles;
      AdvectAll();
      assert boundaries == bs && gravity == g;
      PredictAll();
      assert boundaries == bs && gravity == g;
      assert particles == PredictSweep(AdvectSweep(classified, bs, physics, g, params.mass, params.dt, |ps|),
                                       bs, physics, params.dt, |ps|);
    }

    /** The first three phases of `predictAdvection`: densities, normals, surface flags. */
    method Classify()
      requires Valid() && NeighborsInRange(particles, |boundaries|)
      modifies this`particles
      ensures Valid()
      ensures particles == Classified(old(particles), old(boundaries), physics, params)
    {
      ghost var ps := particles;
      ComputeDensities();
      ComputeNormals();
      NeighborsKept(ps, particles, |boundaries|);
      ComputeSurfaceParticle();
    }

    // ---------------------------------------------------------------- pressure solve

    /** `computeSumDijPj(i)`: the off-diagonal accumulator of particle i. */
    method ComputeSumDijPj(i: int)
      requires 0 <= i < |particles|
      modifies this`particles
      ensures particles == old(particles)[i := old(particles)[i].(sumDij := physics.sumDij(old(particles), i))]
    {
      var sumDij := physics.sumDij(particles, i);
      particles := particles[i := particles[i].(sumDij := sumDij)];
    }

    /** `computePressure(i)`: the corrected density from the neighbour sums, then a relaxed
        Jacobi step with factor omega = 1/2, zero when |aii| is at most the machine epsilon,
        clamped at zero and copied into the solver pressure; the corrected density is then
        completed with the particle's own previous-pressure term. */
    method ComputePressure(i: int)
      requires 0 <= i < |particles|
      modifies this`particles
      ensures particles == old(particles)[i := RelaxPressure(old(particles)[i],
        physics.pressureTerms(old(particles), boundaries, i), params.restDensity)]
      ensures particles[i].p == particles[i].pL && particles[i].p >= 0.0
      ensures Abs(old(particles)[i].aii) <= Epsilon ==> particles[i].p == 0.0
    {
      var pi := particles[i];
      var terms := physics.pressureTerms(particles, boundaries, i);  // fsum + bsum
      var previousPl := pi.pL;
      var rhoCorr := pi.rhoAdv + terms;
      var pl: real;
      if Abs(pi.aii) > Epsilon {
        pl := (1.0 - Omega) * previousPl + (Omega / pi.aii) * (params.restDensity - rhoCorr);
      } else {
        pl := 0.0;
      }
      var p := if pl < 0.0 then 0.0 else pl;
      particles := particles[i := pi.(p := p, pL := p, rhoCorr := rhoCorr + pi.aii * previousPl)];
      assert terms == physics.pressureTerms(old(particles), boundaries, i);
      assert particles[i] == RelaxPressure(pi, terms, params.restDensity);
    }

    /** The first loop of a solver pass. */
    method ComputeSumDijs()
      requires Valid()
      modifies this`particles
      ensures Valid()
      ensures particles == SumDijSweep(old(particles), physics, |old(particles)|)
    {
      ghost var ps := particles;
      for i := 0 to particleNumber
        invariant particles == SumDijSweep(ps, physics, i)
      {
        ComputeSumDijPj(i);
      }
    }

    /** The second loop of a solver pass. */
    method ComputePressures()
      requires Valid()
      modifies this`particles
      ensures Valid()
      ensures particles == PressureSweep(old(particles), boundaries, physics, params.restDensity, |old(particles)|)
    {
      ghost var ps := particles;
      for i := 0 to particleNumber
        invariant particles == PressureSweep(ps, boundaries, physics, params.restDensity, i)
      {
        PressureStep(ps, i);
      }
    }

    /** One turn of the second loop of a solver pass. */
    method PressureStep(ghost ps: seq<Particle>, i: int)
      requires 0 <= i < |ps| && particles == PressureSweep(ps, boundaries, physics, params.restDensity, i)
      modifies this`particles
      ensures particles == PressureSweep(ps, boundaries, physics, params.restDensity, i + 1)
    {
      ComputePressure(i);
    }

    /** `computeError()`: the corrected densities summed in index order and divided by the
        particle count, NaN when there are no particles. */
    method ComputeError()
      requires Valid()
      modifies this`rhoAvgL
      ensures rhoAvgL == MeanRhoCorr(particles)
    {
      var sum := 0.0;
      for i := 0 to particleNumber
        invariant sum == SumRhoCorr(particles[..i])
      {
        assert particles[..i + 1][..i] == particles[..i];
        sum := sum + particles[i].rhoCorr;
      }
      assert particles[..particleNumber] == particles;
      rhoAvgL := if particleNumber == 0 then NaN else Value(sum / particleNumber as real);
    }

    /** `pressureSolve()`: solver passes while the mean corrected density exceeds the rest
        density by more than maxEta, and at least two. The pass count is also bounded by
        2 + extra, which the source does not bound; the result is the number of passes. When
        the bound is not what stopped it, the stop test holds of the last pass, and every pass
        from the second on, except the last, failed it. */
    method PressureSolve(extra: nat) returns (l: nat)
      requires Valid()
      modifies this`particles, this`rhoAvgL
      ensures Valid() && 2 <= l <= 2 + extra
      ensures particles == Iterations(old(particles), boundaries, physics, params.restDensity, l)
      ensures rhoAvgL == MeanRhoCorr(particles)
      ensures l < 2 + extra ==> !Exceeds(rhoAvgL, params.restDensity, params.maxEta)
      ensures KeptGoing(old(particles), boundaries, physics, params.restDensity, params.maxEta, l)
    {
      ghost var ps, bs := particles, boundaries;
      l := 0;
      rhoAvgL := Value(0.0);
      while (Exceeds(rhoAvgL, params.restDensity, params.maxEta) || l < 2) && l < 2 + extra
        invariant Valid() && l <= 2 + extra && boundaries == bs
        invariant particles == Iterations(ps, bs, physics, params.restDensity, l)
        invariant l >= 1 ==> rhoAvgL == MeanRhoCorr(particles)
        invariant KeptGoing(ps, bs, physics, params.restDensity, params.maxEta, l)
        decreases 2 + extra - l
      {
        SolverStep(ps, l);
        l := l + 1;
      }
    }

    /** One turn of the loop of `pressureSolve`: a solver pass after l passes, taken because
        fewer than two passes were made or the last mean exceeded the tolerance. */
    method SolverStep(ghost ps: seq<Particle>, l: nat)
      requires Valid() && particles == Iterations(ps, boundaries, physics, params.restDensity, l)
      requires l >= 1 ==> rhoAvgL == MeanRhoCorr(particles)
      requires KeptGoing(ps, boundaries, physics, params.restDensity, params.maxEta, l)
      requires Exceeds(rhoAvgL, params.restDensity, params.maxEta) || l < 2
      modifies this`particles, this`rhoAvgL
      ensures Valid() && boundaries == old(boundaries)
      ensures particles == Iterations(ps, boundaries, physics, params.restDensity, l + 1)
      ensures rhoAvgL == MeanRhoCorr(particles)
      ensures KeptGoing(ps, boundaries, physics, params.restDensity, params.maxEta, l + 1)
    {
      SolverPass();
    }

    /** The body of the loop of `pressureSolve`: the accumulators, the pressures, then the
        mean corrected density. */
    method SolverPass()
      requires Valid()
      modifies this`particles, this`rhoAvgL
      ensures Valid()
      ensures particles == Iteration(old(particles), boundaries, physics, params.restDensity)
      ensures rhoAvgL == MeanRhoCorr(particles)
    {
      ComputeSumDijs();
      ComputePressures();
      ComputeError();
    }

    // ---------------------------------------------------------------- integration and step

    /** `computePressureForce(i)`: the pressure force on particle i. */
    method ComputePressureForce(i: int)
      requires 0 <= i < |particles|
      modifies this`particles
      ensures particles == old(particles)[i := old(particles)[i].(fP := physics.pressureForce(old(particles), boundaries, i))]
    {
      var fP := physics.pressureForce(particles, boundaries, i);
      particles := particles[i := particles[i].(fP := fP)];
    }

    /** The first loop of `integration`. */
    method ComputePressureForces()
      requires Valid()
      modifies this`particles
      ensures Valid()
      ensures particles == ForceSweep(old(particles), boundaries, physics, |old(particles)|)
    {
      ghost var ps := particles;
      for i := 0 to particleNumber
        invariant particles == ForceSweep(ps, boundaries, physics, i)
      {
        ForceStep(ps, i);
      }
    }

    /** One turn of the first loop of `integration`. */
    method ForceStep(ghost ps: seq<Particle>, i: int)
      requires 0 <= i < |ps| && particles == ForceSweep(ps, boundaries, physics, i)
      modifies this`particles
      ensures particles == ForceSweep(ps, boundaries, physics, i + 1)
    {
      ComputePressureForce(i);
    }

    /** The second loop of `integration`: v = vAdv + dt fP / mass, then x += dt v. */
    method AdvanceAll()
      requires Valid()
      modifies this`particles
      ensures Valid()
      ensures particles == IntegrateSweep(old(particles), params.mass, params.dt, |old(particles)|)
    {
      ghost var ps := particles;
      for i := 0 to particleNumber
        invariant particles == IntegrateSweep(ps, params.mass, params.dt, i)
      {
        var pi := particles[i];
        var v := pi.vAdv.Plus(pi.fP.Scale(params.dt / params.mass));
        particles := particles[i := pi.(v := v, x := pi.x.Plus(v.Scale(params.dt)))];
      }
    }

    /** `integration()`: the step counter and the clock advanced, then the pressure forces and
        the symplectic Euler update. */
    method Integration()
      requires Valid()
      modifies this`particles, this`countTime, this`time
      ensures Valid()
      ensures countTime == old(countTime) + 1 && time == old(time) + params.dt
      ensures particles == IntegrateSweep(ForceSweep(old(particles), boundaries, physics, |old(particles)|),
                                          params.mass, params.dt, |old(particles)|)
    {
      countTime := countTime + 1;
      time := time + params.dt;
      ComputePressureForces();
      AdvanceAll();
    }

    /** `computeMeanDensity()`: the densities summed in index order and divided by the
        particle count, NaN when there are no particles. */
    method ComputeMeanDensity()
      requires Valid()
      modifies this`meanDensity
      ensures meanDensity == Mean(SumRho(particles), |particles|)
    {
      var sum := 0.0;
      for i := 0 to particleNumber
        invariant sum == SumRho(particles[..i])
      {
        assert particles[..i + 1][..i] == particles[..i];
        sum := sum + particles[i].rho;
      }
      assert particles[..particleNumber] == particles;
      meanDensity := if particleNumber == 0 then NaN else Value(sum / particleNumber as real);
    }

    /** `computeDensityFluctuation()`: the mean density minus the rest density. */
    method ComputeDensityFluctuation()
      modifies this`densityFluctuation
      ensures meanDensity.NaN? <==> densityFluctuation.NaN?
      ensures meanDensity.Value? ==> densityFluctuation.v + params.restDensity == meanDensity.v
    {
      densityFluctuation := if meanDensity.NaN? then NaN else Value(meanDensity.v - params.restDensity);
    }

    /** `computeStats()`: the mean density and its distance to the rest density. */
    method ComputeStats()
      requires Valid()
      modifies this`meanDensity, this`densityFluctuation
      ensures meanDensity == Mean(SumRho(particles), |particles|)
      ensures meanDensity.NaN? <==> densityFluctuation.NaN?
      ensures meanDensity.Value? ==> densityFluctuation.v + params.restDensity == meanDensity.v
    {
      ComputeMeanDensity();
      ComputeDensityFluctuation();
    }
  
    /** `simulate()`: one time step. The grid is prepared (with the Morton resequencing every
        hundredth step), the advection predicted, the pressures solved, the particles moved,
        the sources applied, and the statistics updated; the ghost results name the particle
        array between the phases. The solver is bounded by 2 + extra passes.
        `Step.StepLeavesPressuresClamped` shows what the step promises of the pressures. */
    method Simulate(extra: nat)
      returns (ghost prepared: seq<Particle>, ghost grid: seq<seq<int>>, ghost searched: seq<Particle>,
               ghost predicted: seq<Particle>, ghost solved: seq<Particle>, l: nat)
      requires Valid() && GridReady()
      modifies this`particles, this`particleNumber, this`fluidGrid, this`rhoAvgL, this`countTime, this`time
      modifies this`meanDensity, this`densityFluctuation
      ensures Valid()
      ensures |prepared| == |old(particles)| && multiset(prepared) == multiset(old(particles))
      ensures SortSchedule(old(countTime), prepared, old(particles), old(gridInfo))
      ensures Bucketed(grid, Positions(prepared), old(gridInfo)) && IndicesBelow(grid, |prepared|)
      ensures searched == Searched(prepared, old(boundaries), grid, old(boundaryGrid), old(gridInfo), 2.0 * params.h)
      ensures predicted == Predicted(searched, old(boundaries), physics, params, old(gravity))
      ensures 2 <= l <= 2 + extra && solved == Iterations(predicted, boundaries, physics, params.restDensity, l)
      ensures rhoAvgL == MeanRhoCorr(solved) && (l < 2 + extra ==> !Exceeds(rhoAvgL, params.restDensity, params.maxEta))
      ensures particles == IntegrateSweep(ForceSweep(solved, boundaries, physics, |solved|), params.mass, params.dt, |solved|)
                           + Emitted(pSources, time)
      ensures meanDensity == Mean(SumRho(particles), |particles|)
    {
      prepared := PrepareForStep();
      assert SortSchedule(old(countTime), prepared, old(particles), old(gridInfo));
      grid := fluidGrid;
      searched := particles;
      predicted, solved, l := StepOnGrid(extra);
    }

    /** `simulate()` after `prepareGrid()`: the steps that leave the grids alone. */
    method StepOnGrid(extra: nat) returns (ghost predicted: seq<Particle>, ghost solved: seq<Particle>, l: nat)
      requires Valid() && NeighborsInRange(particles, |boundaries|)
      modifies this`particles, this`particleNumber, this`rhoAvgL, this`countTime, this`time
      modifies this`meanDensity, this`densityFluctuation
      ensures Valid()
      ensures predicted == Predicted(old(particles), old(boundaries), physics, params, old(gravity))
      ensures 2 <= l <= 2 + extra && solved == Iterations(predicted, boundaries, physics, params.restDensity, l)
      ensures rhoAvgL == MeanRhoCorr(solved) && (l < 2 + extra ==> !Exceeds(rhoAvgL, params.restDensity, params.maxEta))
      ensures particles == IntegrateSweep(ForceSweep(solved, boundaries, physics, |solved|), params.mass, params.dt, |solved|)
                           + Emitted(pSources, time)
      ensures meanDensity == Mean(SumRho(particles), |particles|)
    {
      predicted, l := PredictAndSolve(extra);
      solved := particles;
      FinishStep();
    }

    /** The start of `simulate()`: `prepareGrid()`, with what the rest of the step needs to
        know of it. */
    method PrepareForStep() returns (ghost prepared: seq<Particle>)
      requires Valid() && GridReady()
      modifies this`particles, this`fluidGrid
      ensures Valid() && GridReady() && |prepared| == |old(particles)| && IndicesBelow(fluidGrid, |prepared|)
      ensures multiset(prepared) == multiset(old(particles)) && Bucketed(fluidGrid, Positions(prepared), old(gridInfo))
      ensures SortSchedule(countTime, prepared, old(particles), gridInfo)
      ensures particles == Searched(prepared, old(boundaries), fluidGrid, old(boundaryGrid), old(gridInfo), 2.0 * params.h)
      ensures boundaries == old(boundaries) && gravity == old(gravity)
    {
      prepared := PrepareGrid();
    }

    /** The middle of `simulate()`: `predictAdvection()` then `pressureSolve()`. */
    method PredictAndSolve(extra: nat) returns (ghost predicted: seq<Particle>, l: nat)
      requires Valid() && NeighborsInRange(particles, |boundaries|)
      modifies this`particles, this`rhoAvgL
      ensures Valid() && 2 <= l <= 2 + extra
      ensures predicted == Predicted(old(particles), old(boundaries), physics, params, old(gravity))
      ensures particles == Iterations(predicted, boundaries, physics, params.restDensity, l)
      ensures rhoAvgL == MeanRhoCorr(particles)
      ensures l < 2 + extra ==> !Exceeds(rhoAvgL, params.restDensity, params.maxEta)
    {
      PredictAdvection();
      predicted := particles;
      l := PressureSolve(extra);
    }

    /** The end of `simulate()`: `integration()`, `applySources()`, `applySinks()` and
        `computeStats()`. */
    method FinishStep()
      requires Valid()
      modifies this`particles, this`particleNumber, this`countTime, this`time
      modifies this`meanDensity, this`densityFluctuation
      ensures Valid()
      ensures countTime == old(countTime) + 1 && time == old(time) + params.dt
      ensures particles == IntegrateSweep(ForceSweep(old(particles), boundaries, physics, |old(particles)|),
                                          params.mass, params.dt, |old(particles)|)
                           + Emitted(pSources, time)
      ensures meanDensity == Mean(SumRho(particles), |particles|)
      ensures rhoAvgL == old(rhoAvgL) && boundaries == old(boundaries) && gravity == old(gravity)
    {
      IntegrateAndEmit();
      ApplySinks();
      ComputeStats();
    }

    /** The first half of the step's ending: integrate, then emit the sources' particles. */
    method IntegrateAndEmit()
      requires Valid()
      modifies this`particles, this`particleNumber, this`countTime, this`time
      ensures Valid()
      ensures countTime == old(countTime) + 1 && time == old(time) + params.dt
      ensures particles == IntegrateSweep(ForceSweep(old(particles), old(boundaries), physics, |old(particles)|),
                                          params.mass, params.dt, |old(particles)|)
                           + Emitted(pSources, time)
      ensures boundaries == old(boundaries) && gravity == old(gravity) && rhoAvgL == old(rhoAvgL)
    {
      Integration();
      ApplySources();
    }
  }
}
