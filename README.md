# Hokusai SPH system: a verified model of the simulation bookkeeping

Hokusai simulates fluids with Smoothed Particle Hydrodynamics and implicit incompressible
SPH (IISPH). Its `System` class owns these pieces of state:

- the fluid particles and the boundary samples;
- two uniform bucket grids, one over each of those arrays;
- the step counters;
- the particle sources;
- the gravity vector.

One call to `simulate` advances the fluid by a time step `dt` in this order:

1. Rebuild the fluid grid and search neighbours (`prepareGrid`). Every 100th step the
   particles are first re-sequenced along a Morton (Z-order) curve (`mortonSort`).
2. Predict densities, normals, surface flags and advected velocities (`predictAdvection`).
3. Iterate the relaxed-Jacobi pressure solve until the mean corrected density is close
   enough to the rest density (`pressureSolve`).
4. Integrate positions and velocities (`integration`).
5. Emit the particles of every source (`applySources`).
6. Record the mean density and its fluctuation (`computeStats`).

This project models that bookkeeping in Dafny:

- the scene builders that fill the particle and boundary arrays;
- grid bucketing and the 27-cell neighbour search;
- the Morton re-sequencing;
- surface classification;
- the control logic of the pressure solver;
- the integration step.

`System` is a class whose `seq` fields the methods reassign, one phase loop at a time. Each
loop is proved against a sweep function of module `Step` that describes the array after the
first `k` particles are processed. The SPH numerics are abstract functions, gathered in the
`Physics` record:

- the Monaghan kernel value;
- the normal;
- the advection forces;
- `d_ii`, `a_ii`, `sum d_ij p_j`;
- the pressure terms and forces.

The model states exactly which fields each phase writes and which it leaves alone. It also
proves the solver's own arithmetic (the relaxation, the clamp and the stopping rule) and the
combinatorics of the grids and the Morton sort.

Modules, one per file:

- `Geometry`: vectors, squared distance, and the grid helper as data (`GridInfo`).
- `Particles`: particles and boundary samples.
- `Physics`: the abstract numerics and the parameters.
- `Density`: the SPH density sum.
- `Pressure`: the relaxation step, warm start, mean corrected density and stopping test.
- `SpatialGrid`: bucketing and the neighbour search.
- `Morton`: z-index pairs, sorting, re-sequencing.
- `Surface`: surface classification.
- `Step`: the phase sweeps and the step composition.
- `Populate`: the lattices the scene builders sample.
- `Hokusai`: the `System` class.

The pressure solver's stopping test is one-sided, as the code has it: the loop goes on while
`rho_avg_l - restDensity` exceeds `maxEta`, with no absolute value, so a mean density that is
too low stops the loop. `Pressure.Exceeds` states this.

## Model

| member | source | states |
|---|---|---|
| Hokusai.System.constructor | hokusai_3d/hokusai/src/system.cpp:79-114 | the system starts with no particles, boundaries, sources or grids, zero counters and time, the averages at 0, gravity (0, -9.81, 0), and the given parameters and grid |
| Hokusai.System.AddFluidParticle | hokusai_3d/hokusai/src/system.cpp:806-810 | appends exactly one particle at x with velocity v, no neighbours and not on the surface; the count follows the array |
| Hokusai.System.AddBoundaryParticle | hokusai_3d/hokusai/src/system.cpp:812-816 | appends exactly one boundary sample at x with velocity v and volume 0; the count follows the array |
| Hokusai.System.AddParticleBox | hokusai_3d/hokusai/src/system.cpp:737-756 | appends one particle at rest per lattice point offset + (i,j,k)h with i, j, k below floor(scale/h), in i-j-k order, and nothing else |
| Hokusai.System.AddParticleBoxSpaced | hokusai_3d/hokusai/src/system.cpp:758-777 | the same lattice, anchored at the origin and spaced by the given spacing |
| Populate.ParticleBox | hokusai_3d/hokusai/src/system.cpp:737-756 | the lattice offset + (i,j,k)h with each index below floor(scale/h) on its axis, i outermost and k innermost; `Populate.ParticleBoxInsideExtent` and `Populate.BlocksLength` state its extent and its size |
| Hokusai.System.FillBox | hokusai_3d/hokusai/src/system.cpp:743-755 | the triple loop appends the whole block of lattice points in loop order |
| Hokusai.System.FillSlab | hokusai_3d/hokusai/src/system.cpp:745-754 | one pass of the i loop appends the j-k slab of points for that i |
| Hokusai.System.FillRow | hokusai_3d/hokusai/src/system.cpp:747-753 | one pass of the j loop appends the k row of points for that i and j |
| Hokusai.System.CreateParticleVolume | hokusai_3d/hokusai/src/system.cpp:780-804 | appends exactly the first particleMax points of the layer-by-layer lattice above pos; none when particleMax <= 0 |
| Hokusai.System.FillLayer | hokusai_3d/hokusai/src/system.cpp:788-801 | one layer visits every (i,k) cell of layer j, counts each and appends those still under the cap |
| Hokusai.System.FillVolumeRow | hokusai_3d/hokusai/src/system.cpp:790-800 | one row visits every k of the row, counts each and appends those still under the cap |
| Hokusai.System.VisitVolumeCell | hokusai_3d/hokusai/src/system.cpp:792-799 | one cell raises the count by one and appends its point only while the count is below particleMax |
| Populate.VolumeSamples | hokusai_3d/hokusai/src/system.cpp:780-804 | the layer-by-layer lattice above pos, (floor(width/s)+1)(floor(depth/s)+1) cells per layer, cut to the first particleMax points, empty for particleMax <= 0; `Populate.VolumeSamplesCount` and `Populate.VolumeSamplesWithin` state its size and extent |
| Hokusai.System.AddBoundaryBox | hokusai_3d/hokusai/src/system.cpp:589-663 | appends, as written, the six face lattices as boundary samples at rest with volume 0: each face lies on its plane of the box, with in-plane coordinates i*h and j*h from the world origin (see Findings); then sets the grid to the box grown by 2h on each side with cell size 2h |
| Hokusai.System.AddBoundaryFaces | hokusai_3d/hokusai/src/system.cpp:596-660 | the six face loops append the as-written faces bottom, top, back, front, left and right in that order |
| Hokusai.System.AddBoundaryFace | hokusai_3d/hokusai/src/system.cpp:596-660 | one face loop extends the faces appended so far by exactly the next face in that order |
| Hokusai.System.AddBoundaryPlane | hokusai_3d/hokusai/src/system.cpp:597-605 | one face loop appends its (widthSize+1)(depthSize+1) samples, row by row, at i*h and j*h from the world origin in the plane and at the box's offset (plus its size for the far face) across it |
| Hokusai.System.AddBoundaryRow | hokusai_3d/hokusai/src/system.cpp:599-604 | one pass of a face's outer loop extends the appended face by exactly row i |
| Hokusai.System.AddBoundaryLine | hokusai_3d/hokusai/src/system.cpp:599-604 | the inner loop appends the samples of row i in order |
| Populate.BoundaryBoxAsWritten | hokusai_3d/hokusai/src/system.cpp:596-660 | the six faces as the loops write them, in-plane coordinates measured from the world origin; `Populate.AsWrittenBoxLeavesItsExtent` shows a sample off the box |
| Populate.BoundaryBox | hokusai_3d/hokusai/src/system.cpp:596-660 | the same six faces with in-plane coordinates measured from the offset, the evidently intended placement; `Populate.BoundaryBoxWithinExtent` shows every sample lies on the box |
| Hokusai.System.TranslateParticles | hokusai_3d/hokusai/src/system.cpp:704-710 | every particle moves by t and keeps every other field |
| Hokusai.System.TranslateBoundaries | hokusai_3d/hokusai/src/system.cpp:696-702 | every boundary sample moves by t and keeps its velocity and volume |
| Step.Translated | hokusai_3d/hokusai/src/system.cpp:704-710 | the particles with every position shifted by t and every other field kept |
| Step.TranslatedBoundaries | hokusai_3d/hokusai/src/system.cpp:696-702 | the boundary samples with every position shifted by t and velocity and volume kept |
| Step.TranslationsCompose | hokusai_3d/hokusai/src/system.cpp:704-710 | translating by a and then by b is translating by a+b, and translating by -a undoes translating by a |
| Hokusai.System.AddParticleSource | hokusai_3d/hokusai/src/system.cpp:732-735 | the source list gains exactly this source at its end |
| Hokusai.System.SetGravity | hokusai_3d/hokusai/src/system.cpp:497-500 | gravity becomes the given vector |
| Hokusai.System.ApplySources | hokusai_3d/hokusai/src/system.cpp:1043-1054 | appends, source by source, exactly what each source emits at the current time; the count follows |
| Step.Emitted | hokusai_3d/hokusai/src/system.cpp:1045-1053 | no sources emit nothing; a particle is emitted iff some source hands it back; the emission holds at least as many particles as any one source gives |
| Step.EmittedLength | hokusai_3d/hokusai/src/system.cpp:1045-1053 | the emission holds exactly as many particles as the sources hand back together, counted source by source from the first |
| Hokusai.System.AppendEmitted | hokusai_3d/hokusai/src/system.cpp:1048-1052 | the inner loop pushes one source's particles in order after the existing ones, and the count follows |
| Hokusai.System.ApplySinks | hokusai_3d/hokusai/src/system.cpp:1056-1058 | changes nothing |
| Hokusai.System.MortonSort | hokusai_3d/hokusai/src/system.cpp:844-881 | the particles are re-sequenced by a permutation of their indices (same multiset, same count) into non-decreasing Morton key order |
| Hokusai.System.ZIndices | hokusai_3d/hokusai/src/system.cpp:849-858 | the pair list holds (i, Morton key of particle i's cell) for every i, in index order |
| Hokusai.System.Reorder | hokusai_3d/hokusai/src/system.cpp:864-880 | slot t receives the old particle the t-th pair names (the i == first skip writes the same value) |
| Morton.SortPairs | hokusai_3d/hokusai/src/system.cpp:861 | the pairs come out sorted by pairCompare (their second component) and are a permutation of the input |
| Morton.PairCompare | hokusai_3d/hokusai/src/system.cpp:839-842 | a pair comes before another iff its Morton key (second component) is strictly smaller; the index (first component) plays no part, so ties are unordered |
| Morton.InsertAt | hokusai_3d/hokusai/src/system.cpp:861 | inserting one more pair extends the sorted prefix by one, keeping the multiset |
| Morton.SinkStep | hokusai_3d/hokusai/src/system.cpp:839-842 | swapping a pair that pairCompare places before its left neighbour moves the gap one slot left and keeps the multiset |
| Morton.SortedPairsPermute | hokusai_3d/hokusai/src/system.cpp:846-861 | a sorted permutation of the z-index pairs names every particle index exactly once, pairs it with its own key, and orders the keys |
| Morton.PermutationUsesEachIndexOnce | hokusai_3d/hokusai/src/system.cpp:869-880 | a permutation of 0..n-1 has n entries, all in range, each index occurring exactly once |
| Morton.PermutedMultiset | hokusai_3d/hokusai/src/system.cpp:864-880 | copying old slots by a permutation keeps the multiset of particles |
| Morton.RangeCounts | hokusai_3d/hokusai/src/system.cpp:849 | the index list 0..n-1 holds each index below n exactly once and nothing else |
| Morton.MapSeqMultiset | hokusai_3d/hokusai/src/system.cpp:864-880 | equal multisets stay equal under the same per-element map (the index projection of the sorted pairs) |
| Hokusai.System.Init | hokusai_3d/hokusai/src/system.cpp:540-587 | after a Morton sort, buckets every boundary sample inside the grid into its cell (exactly, on an empty grid), sizes the fluid grid, prepares the grid and marks every particle as surface |
| Hokusai.System.BucketBoundaries | hokusai_3d/hokusai/src/system.cpp:544-550 | the boundary grid is resized to the grid size and each cell gains, in index order, exactly the samples whose cell id it is |
| Hokusai.System.MarkAllSurface | hokusai_3d/hokusai/src/system.cpp:565-568 | every particle becomes a surface particle and nothing else changes |
| Hokusai.System.PrepareGrid | hokusai_3d/hokusai/src/system.cpp:923-943 | Morton-sorts exactly when countTime is a multiple of 100, rebuilds the fluid grid from the resulting order, and gives every particle its neighbours within 2h |
| Hokusai.System.RebuildFluidGrid | hokusai_3d/hokusai/src/system.cpp:928-936 | after clearing, each fluid cell lists exactly the particles whose cell id it is, in index order |
| SpatialGrid.AddToBuckets | hokusai_3d/hokusai/src/system.cpp:931-936 | the bucketing loop appends to each cell exactly the in-grid points of that cell, in index order |
| SpatialGrid.Bucket | hokusai_3d/hokusai/src/system.cpp:931-936 | a cell's bucket holds an index iff that point's cell id is the cell, with no repeats and in increasing order |
| SpatialGrid.BucketsPartition | hokusai_3d/hokusai/src/system.cpp:928-936 | in a bucketed grid a point inside the grid sits in its own cell and no other; a point outside sits in none |
| SpatialGrid.Resized | hokusai_3d/hokusai/src/system.cpp:544 | resizing keeps the first cells and adds empty ones up to the new size |
| Hokusai.System.SearchNeighbors | hokusai_3d/hokusai/src/system.cpp:941-942 | every particle's neighbour lists are replaced by the search result for radius 2h, all against the same positions |
| Step.Searched | hokusai_3d/hokusai/src/system.cpp:941-942 | the searched array keeps its length and every neighbour index stays in range |
| Hokusai.System.GetNearestNeighbor | hokusai_3d/hokusai/src/system.cpp:413-444 | only particle i changes, and only in its two neighbour lists, which become the in-radius entries of the 27 surrounding cells |
| Hokusai.System.SearchAround | hokusai_3d/hokusai/src/system.cpp:419-443 | the two lists are the in-radius fluid and boundary entries of the surrounding cells, in cell then bucket order |
| SpatialGrid.SearchCells | hokusai_3d/hokusai/src/system.cpp:422-443 | the cell loop produces the in-radius entries of both grids over the given cells |
| SpatialGrid.AppendNear | hokusai_3d/hokusai/src/system.cpp:425-432 | the bucket loop appends exactly the bucket entries strictly closer than the radius, in bucket order |
| SpatialGrid.FilterNear | hokusai_3d/hokusai/src/system.cpp:425-432 | the filtered list is never longer than the bucket it came from |
| SpatialGrid.FilterNearMembers | hokusai_3d/hokusai/src/system.cpp:430-431 | the filter keeps exactly the indices whose squared distance is below the bound |
| SpatialGrid.FilterNearAppend | hokusai_3d/hokusai/src/system.cpp:422-443 | filtering a concatenation is concatenating the filtered parts |
| SpatialGrid.NearInIsFilteredCandidates | hokusai_3d/hokusai/src/system.cpp:413-458 | the radius search equals the second getNearestNeighbor's candidate list filtered by distance |
| SpatialGrid.NearInMembers | hokusai_3d/hokusai/src/system.cpp:422-443 | an index is found iff it is in one of the visited buckets and is within the radius |
| SpatialGrid.NearInInRange | hokusai_3d/hokusai/src/system.cpp:427-438 | every found index refers to an existing point |
| SpatialGrid.NeighborSearchIsExhaustive | hokusai_3d/hokusai/src/system.cpp:413-444 | on a bucketed grid whose 27-cell block covers the radius, the search finds exactly the in-grid points within the radius, the same as a brute-force scan |
| Step.WithNeighbors | hokusai_3d/hokusai/src/system.cpp:413-444 | a searched particle differs only in its neighbour lists, and all listed indices are valid |
| Step.WithNeighborsIsExhaustive | hokusai_3d/hokusai/src/system.cpp:413-444 | a particle's fluid neighbours are exactly the in-grid particles within the radius; the same holds for boundary neighbours when the boundary grid is bucketed |
| Step.WithNeighborsListsItself | hokusai_3d/hokusai/src/system.cpp:434-442 | a particle inside the grid always lists itself as a fluid neighbour |
| Hokusai.System.GetNeighborCandidates | hokusai_3d/hokusai/src/system.cpp:446-458 | the list is every entry of the cells around x at the grid spacing, with no distance filter |
| SpatialGrid.GatherCells | hokusai_3d/hokusai/src/system.cpp:451-457 | the cell loop concatenates the buckets of the given cells |
| SpatialGrid.Candidates | hokusai_3d/hokusai/src/system.cpp:446-458 | an index is a candidate iff some visited cell's bucket holds it |
| Hokusai.System.ComputeRho | hokusai_3d/hokusai/src/system.cpp:118-134 | only particle i's density changes, to the mass-weighted kernel sum over its fluid neighbours plus the psi-weighted sum over its boundary neighbours |
| Hokusai.System.FluidSum | hokusai_3d/hokusai/src/system.cpp:123-128 | the loop computes the fluid part of the density sum |
| Hokusai.System.BoundarySum | hokusai_3d/hokusai/src/system.cpp:129-133 | the loop computes the boundary part of the density sum |
| Density.Rho | hokusai_3d/hokusai/src/system.cpp:118-134 | the density of particle i: the fluid sum over its fluid neighbours plus the boundary sum over its boundary neighbours, both at its own position |
| Density.FluidDensity | hokusai_3d/hokusai/src/system.cpp:123-128 | with a non-negative kernel and mass the fluid part is non-negative |
| Density.BoundaryDensity | hokusai_3d/hokusai/src/system.cpp:129-133 | with a non-negative kernel and volumes the boundary part is non-negative |
| Density.FluidDensityCountsEachNeighbor | hokusai_3d/hokusai/src/system.cpp:124-128 | every listed neighbour contributes at least its own term |
| Density.DensityIncludesSelf | hokusai_3d/hokusai/src/system.cpp:118-134 | a particle that lists itself has density at least mass times the kernel at zero |
| Step.RhoIgnoresDensities | hokusai_3d/hokusai/src/system.cpp:118-134 | a particle's density does not depend on any stored density, so the density loop's order does not matter |
| Hokusai.System.ComputeDensities | hokusai_3d/hokusai/src/system.cpp:950-951 | the loop sets every density from the neighbour lists and changes nothing else |
| Hokusai.System.DensityStep | hokusai_3d/hokusai/src/system.cpp:950-951 | one pass of the density loop extends the sweep by exactly particle i |
| Step.RhoSweep | hokusai_3d/hokusai/src/system.cpp:950-951 | after k steps only the densities of the first k particles have changed |
| Hokusai.System.ComputeNormals | hokusai_3d/hokusai/src/system.cpp:956-957 | the loop sets every normal and changes nothing else |
| Step.NormalSweep | hokusai_3d/hokusai/src/system.cpp:136-153 | after k steps only the normals of the first k particles have changed |
| Hokusai.System.ComputeSurfaceParticle | hokusai_3d/hokusai/src/system.cpp:883-921 | a particle ends on the surface iff it is a seed (normal length squared above 0.2, or fewer fluid neighbours than half particlePerCell) or a fluid neighbour of a seed; nothing else changes |
| Step.Surfaced | hokusai_3d/hokusai/src/system.cpp:883-921 | the array with each surface flag set to whether the particle is on the surface of that same array, and every other field kept |
| Surface.IsSurfaceParticle | hokusai_3d/hokusai/src/system.cpp:155-166 | a particle is above a threshold iff the squared length of its normal is strictly greater than it (0.2 for the seeds, 0.05 for getSurfaceParticle) |
| Surface.IsSeed | hokusai_3d/hokusai/src/system.cpp:891-896 | a seed has a normal longer than the 0.2 threshold or fewer fluid neighbours than half particlePerCell |
| Surface.OnSurface | hokusai_3d/hokusai/src/system.cpp:890-906 | an index is on the surface iff it is a seed or in the fluid-neighbour list of some seed; `Surface.CollectSurface` proves the collecting loop reaches exactly these |
| Surface.CollectSurface | hokusai_3d/hokusai/src/system.cpp:890-906 | the collected set holds exactly the seeds and the neighbours of seeds |
| Surface.OnSurfaceIgnoresFlags | hokusai_3d/hokusai/src/system.cpp:885-896 | clearing the flags first does not change which particles are classified as surface |
| Surface.SurfaceIndicesInRange | hokusai_3d/hokusai/src/system.cpp:908-911 | every classified index is a valid particle index |
| Hokusai.System.GetSurfaceParticle | hokusai_3d/hokusai/src/system.cpp:168-190 | recomputes densities then normals, and returns the particles whose normal length squared exceeds 0.05 |
| Hokusai.System.CollectSurfaceCopies | hokusai_3d/hokusai/src/system.cpp:182-189 | the loop collects exactly the particles above the threshold |
| Surface.SurfaceParticles | hokusai_3d/hokusai/src/system.cpp:184-188 | a particle is returned iff it is present and above the threshold, as often as it occurs in the input; the result is never longer than the input |
| Hokusai.System.ComputeAdvectionForces | hokusai_3d/hokusai/src/system.cpp:192-207 | only particle i's advection force changes, to the neighbour forces plus gravity times mass |
| Hokusai.System.PredictVelocity | hokusai_3d/hokusai/src/system.cpp:209-213 | only particle i's advected velocity changes, to v + (dt/mass) f_adv |
| Hokusai.System.ComputeDii | hokusai_3d/hokusai/src/system.cpp:366-388 | only particle i's two d_ii terms change |
| Hokusai.System.AdvectStep | hokusai_3d/hokusai/src/system.cpp:964-969 | one pass of the first prediction loop writes only particle i's forces, advected velocity and d_ii |
| Step.AdvectParticle | hokusai_3d/hokusai/src/system.cpp:965-969 | the advected velocity uses the force this same pass computed |
| Hokusai.System.AdvectAll | hokusai_3d/hokusai/src/system.cpp:964-969 | the loop writes those fields for every particle and nothing else |
| Step.AdvectSweep | hokusai_3d/hokusai/src/system.cpp:964-969 | after k steps the first k particles have v_adv = v + (dt/mass) f_adv and the rest are untouched |
| Hokusai.System.PredictRho | hokusai_3d/hokusai/src/system.cpp:215-243 | only particle i's advected density changes, to rho + dt times the density rate |
| Hokusai.System.InitializePressure | hokusai_3d/hokusai/src/system.cpp:321-325 | only particle i's iterate changes, to half its last pressure |
| Pressure.WarmStart | hokusai_3d/hokusai/src/system.cpp:321-325 | the warm start is half the last pressure, non-negative when that pressure is, and nothing else changes |
| Hokusai.System.ComputeAii | hokusai_3d/hokusai/src/system.cpp:390-411 | only particle i's a_ii changes |
| Hokusai.System.PredictStep | hokusai_3d/hokusai/src/system.cpp:974-979 | one pass of the second prediction loop writes only particle i's advected density, iterate and a_ii |
| Step.PredictParticle | hokusai_3d/hokusai/src/system.cpp:975-979 | the pass changes exactly those three fields, and the iterate is the warm start |
| Hokusai.System.PredictAll | hokusai_3d/hokusai/src/system.cpp:974-979 | the loop writes those fields for every particle and nothing else |
| Step.PredictSweep | hokusai_3d/hokusai/src/system.cpp:974-979 | after k steps the first k particles start from half their last pressure and the rest are untouched |
| Hokusai.System.Classify | hokusai_3d/hokusai/src/system.cpp:950-959 | densities, normals and surface flags are recomputed and nothing else changes |
| Step.Classified | hokusai_3d/hokusai/src/system.cpp:950-959 | only density, normal and surface flag differ from the input |
| Hokusai.System.PredictAdvection | hokusai_3d/hokusai/src/system.cpp:945-980 | the whole prediction phase, as the composition of its five loops |
| Step.Predicted | hokusai_3d/hokusai/src/system.cpp:945-980 | the prediction phase writes only its ten fields, and every particle gets v_adv = v + (dt/mass) f_adv and an iterate of half its last pressure |
| Hokusai.System.ComputeSumDijPj | hokusai_3d/hokusai/src/system.cpp:245-261 | only particle i's sum of d_ij p_j changes |
| Hokusai.System.ComputeSumDijs | hokusai_3d/hokusai/src/system.cpp:991-992 | the loop writes every particle's sum and nothing else |
| Step.SumDijSweep | hokusai_3d/hokusai/src/system.cpp:991-992 | after k steps only the first k sums have changed |
| Hokusai.System.ComputePressure | hokusai_3d/hokusai/src/system.cpp:263-298 | only particle i's pressure, iterate and corrected density change; the new pressure equals the new iterate, is non-negative, and is 0 when abs(a_ii) is at most the machine epsilon |
| Pressure.RelaxPressure | hokusai_3d/hokusai/src/system.cpp:289-297 | clamp and guard as above, and the corrected density is rho_adv + the pressure terms + a_ii times the previous iterate |
| Pressure.RelaxMovesHalfway | hokusai_3d/hokusai/src/system.cpp:291-295 | with omega = 0.5 the new pressure is max(0, the mean of the previous iterate and the Jacobi update) |
| Pressure.RelaxFixedPoint | hokusai_3d/hokusai/src/system.cpp:289-297 | an iterate that already solves a_ii p = rest density - (rho_adv + terms) is kept, and its corrected density is the rest density |
| Pressure.Max | hokusai_3d/hokusai/src/system.cpp:295 | the maximum is one of its arguments and bounds both |
| Hokusai.System.ComputePressures | hokusai_3d/hokusai/src/system.cpp:997-1000 | the loop relaxes every particle's pressure and changes nothing else |
| Hokusai.System.PressureStep | hokusai_3d/hokusai/src/system.cpp:997-1000 | one pass of the pressure loop extends the sweep by exactly particle i |
| Step.PressureSweep | hokusai_3d/hokusai/src/system.cpp:997-1000 | after k steps the first k pressures are clamped, equal their iterates, and are 0 where a_ii is negligible; the rest are untouched |
| Hokusai.System.ComputeError | hokusai_3d/hokusai/src/system.cpp:327-333 | rho_avg_l becomes the mean corrected density, NaN when there are no particles |
| Pressure.MeanRhoCorr | hokusai_3d/hokusai/src/system.cpp:327-333 | the mean corrected density is NaN iff there are no particles |
| Pressure.SumRhoCorr | hokusai_3d/hokusai/src/system.cpp:329-331 | the sum of the corrected densities, accumulated in index order as computeError does |
| Pressure.Mean | hokusai_3d/hokusai/src/system.cpp:332 | dividing by the count is NaN iff the count is 0, and otherwise the mean times the count is the sum |
| Pressure.SumRhoCorrBounded | hokusai_3d/hokusai/src/system.cpp:329-331 | if every corrected density is at most hi, the accumulated sum is at most n times hi |
| Pressure.SolverStopsWhenEveryParticleIsWithinTolerance | hokusai_3d/hokusai/src/system.cpp:986 | when every corrected density is within maxEta above the rest density, the density half of the loop condition fails |
| Pressure.Exceeds | hokusai_3d/hokusai/src/system.cpp:986 | the density half of the loop condition: the mean is a number and exceeds the rest density by more than maxEta, one-sided, with NaN never exceeding |
| Hokusai.System.PressureSolve | hokusai_3d/hokusai/src/system.cpp:982-1009 | runs l >= 2 solver passes; every pass from the third on began with the mean above tolerance; stopping early means the final mean is within tolerance; rho_avg_l is the final mean |
| Hokusai.System.SolverStep | hokusai_3d/hokusai/src/system.cpp:986-1005 | one iteration of the while loop adds one pass and keeps the record of why the loop continued |
| Hokusai.System.SolverPass | hokusai_3d/hokusai/src/system.cpp:991-1002 | one pass computes the sums, relaxes the pressures and records the mean |
| Step.Iteration | hokusai_3d/hokusai/src/system.cpp:991-1000 | a pass writes only the sums, pressures, iterates and corrected densities, leaving every pressure clamped and equal to its iterate |
| Step.Iterations | hokusai_3d/hokusai/src/system.cpp:986-1007 | after at least one pass every pressure is clamped, equals its iterate, and is 0 where a_ii is negligible |
| Step.HeldFromSecondEveryPass | hokusai_3d/hokusai/src/system.cpp:986 | the recursive record of the loop guard means that every pass m with 2 <= m < l saw the guard hold |
| Hokusai.System.ComputePressureForce | hokusai_3d/hokusai/src/system.cpp:300-319 | only particle i's pressure force changes |
| Hokusai.System.ComputePressureForces | hokusai_3d/hokusai/src/system.cpp:1018-1019 | the loop writes every pressure force and nothing else |
| Hokusai.System.ForceStep | hokusai_3d/hokusai/src/system.cpp:1018-1019 | one pass of the pressure-force loop extends the sweep by exactly particle i |
| Step.ForceSweep | hokusai_3d/hokusai/src/system.cpp:1018-1019 | after k steps only the first k forces have changed |
| Hokusai.System.AdvanceAll | hokusai_3d/hokusai/src/system.cpp:1024-1029 | the loop moves every particle with the semi-implicit Euler step and nothing else |
| Step.Advance | hokusai_3d/hokusai/src/system.cpp:1026-1028 | one particle's symplectic Euler update: v becomes v_adv + (dt/mass) f_p, then x moves by dt times the new v, and no other field changes |
| Step.IntegrateSweep | hokusai_3d/hokusai/src/system.cpp:1024-1029 | after k steps the first k particles have v = v_adv + (dt/mass) f_p and x += dt v, and only x and v changed |
| Hokusai.System.Integration | hokusai_3d/hokusai/src/system.cpp:1011-1030 | countTime goes up by one, time by dt, then the forces and the integration |
| Step.IntegrationKeepsPressures | hokusai_3d/hokusai/src/system.cpp:1011-1030 | integration changes no pressure and no iterate |
| Step.StepLeavesPressuresClamped | hokusai_3d/hokusai/src/system.cpp:1032-1041 | after a step every particle that existed before it has a non-negative pressure equal to its iterate |
| Hokusai.System.ComputeMeanDensity | hokusai_3d/hokusai/src/system.cpp:473-481 | the mean density is the sum of densities over the count, NaN with no particles |
| Step.SumRho | hokusai_3d/hokusai/src/system.cpp:475-479 | the sum of the densities, accumulated in index order as computeMeanDensity does |
| Hokusai.System.ComputeDensityFluctuation | hokusai_3d/hokusai/src/system.cpp:483-486 | the fluctuation is the mean density minus the rest density, NaN exactly when the mean is |
| Hokusai.System.ComputeStats | hokusai_3d/hokusai/src/system.cpp:1060-1065 | both statistics, as above |
| Hokusai.System.Simulate | hokusai_3d/hokusai/src/system.cpp:1032-1041 | one step is a permutation of the particles (into Morton order exactly when countTime is a multiple of 100, the order kept otherwise), a fresh fluid grid and search, the prediction, at least two solver passes with the stopping guarantee, integration, emission and statistics, in that order |
| Hokusai.System.PrepareForStep | hokusai_3d/hokusai/src/system.cpp:1034 | the grid phase resequences the particles into Morton order by a permutation exactly when countTime is a multiple of 100 and keeps their order otherwise, buckets them, and gives each its neighbours |
| Hokusai.System.StepOnGrid | hokusai_3d/hokusai/src/system.cpp:1035-1040 | the phases after the grid phase, composed |
| Hokusai.System.PredictAndSolve | hokusai_3d/hokusai/src/system.cpp:1035-1036 | the prediction followed by the solver, composed |
| Hokusai.System.FinishStep | hokusai_3d/hokusai/src/system.cpp:1037-1040 | integration, emission, the empty sink step and the statistics, composed |
| Hokusai.System.IntegrateAndEmit | hokusai_3d/hokusai/src/system.cpp:1037-1038 | integration then emission at the new time |
| Particles.NewParticle | hokusai_3d/hokusai/src/system.cpp:808 | a new particle has the given position and velocity, no neighbours, and is not on the surface |
| Geometry.Dist2 | hokusai_3d/hokusai/src/system.cpp:429-430 | the squared distance is non-negative and 0 from a point to itself |
| Populate.ParticleBoxInsideExtent | hokusai_3d/hokusai/src/system.cpp:737-756 | every particle of a box lies in the half-open box [offset, offset+scale) |
| Populate.BlocksLength | hokusai_3d/hokusai/src/system.cpp:743-755 | the triple loop produces widthSize * heightSize * depthSize points |
| Populate.RowsLength | hokusai_3d/hokusai/src/system.cpp:745-754 | a slab of j rows of n3 points holds j * n3 points |
| Populate.BlocksWithin | hokusai_3d/hokusai/src/system.cpp:743-755 | if every lattice point is in an extent, so is every appended point |
| Populate.RowsWithin | hokusai_3d/hokusai/src/system.cpp:745-754 | the same for one slab |
| Populate.SpacingInside | hokusai_3d/hokusai/src/system.cpp:739-747 | a step a < floor(len/h) lies in [0, len) |
| Populate.SpacingWithin | hokusai_3d/hokusai/src/system.cpp:592-599 | a step a <= floor(len/h) lies in [0, len] |
| Populate.AsWrittenBoxLeavesItsExtent | hokusai_3d/hokusai/src/system.cpp:596-605 | the face samples as written can fall outside the box (see Findings) |
| Populate.BoundaryBoxWithinExtent | hokusai_3d/hokusai/src/system.cpp:589-660 | with in-plane coordinates measured from the offset, every boundary sample lies on the closed box |
| Populate.FacesUpToWithinExtent | hokusai_3d/hokusai/src/system.cpp:596-660 | the faces appended so far all lie on the closed box |
| Populate.FaceWithinExtent | hokusai_3d/hokusai/src/system.cpp:597-605 | every sample of one face lies on the closed box |
| Populate.FacePointWithinExtent | hokusai_3d/hokusai/src/system.cpp:601 | one face sample lies on the closed box |
| Populate.InPlaneWithinExtent | hokusai_3d/hokusai/src/system.cpp:601-656 | a point on one of the six face planes with in-plane offsets within the face lies on the closed box |
| Populate.FacesUpToGrows | hokusai_3d/hokusai/src/system.cpp:596-660 | appending more faces keeps every sample already appended |
| Populate.VolumeSamplesCount | hokusai_3d/hokusai/src/system.cpp:780-804 | createParticleVolume adds exactly max(particleMax, 0) particles |
| Populate.VolumeSamplesWithin | hokusai_3d/hokusai/src/system.cpp:780-804 | every volume particle lies in the closed box above pos whose height is the number of layers the loop runs times the spacing |
| Populate.VolumePointWithin | hokusai_3d/hokusai/src/system.cpp:794 | one volume lattice point lies in that box |
| Populate.LayersFor | hokusai_3d/hokusai/src/system.cpp:786-803 | the while loop runs the fewest layers whose cells reach particleMax |
| Populate.LayersForIsUnique | hokusai_3d/hokusai/src/system.cpp:786-803 | that layer count is the only one with this property |
| Populate.EmptyLayerWhenSpanNegative | hokusai_3d/hokusai/src/system.cpp:786-803 | with floor(width/spacing) or floor(depth/spacing) below 0 a layer holds no cell, so the count never grows and the while loop never ends for a positive particleMax |
| Populate.PerLayer | hokusai_3d/hokusai/src/system.cpp:788-791 | a layer has at least one cell, so the while loop ends |
| Populate.TakeAppendOne | hokusai_3d/hokusai/src/system.cpp:792-799 | visiting one more cell appends its point iff the count is still below particleMax |
| Populate.Take | hokusai_3d/hokusai/src/system.cpp:792-799 | the capped prefix has min(length, max(cap, 0)) elements and agrees with the visit order |
| Particles.NeighborsKept | hokusai_3d/hokusai/src/system.cpp:945-980 | a phase that keeps every neighbour list keeps them in range |

## Left out

- The SPH numerics are not modelled: the Monaghan and Akinci kernels and their gradients,
  the viscosity, cohesion, adhesion and friction forces, `computeDij`, and the bodies of the
  d_ii, a_ii, sum-d_ij, pressure-term and pressure-force loops. They are abstract functions
  of the particle and boundary arrays (the `Physics` record). Their floating-point arithmetic
  is not part of this model; the model proves which fields each phase writes, not their
  values.
- Floating point is modelled as exact reals. The only NaN the model keeps is the result of
  dividing by a particle count of zero, in `Pressure.Average`.
- OpenMP parallel loops are modelled as sequential loops. `Step.RhoIgnoresDensities` shows
  that the density loop does not depend on its order; the other loops are stated in index
  order.
- I/O is left out: `debugFluid`, `debugIteration`, `exportState` and the writers.
- `computeBoundaryVolume` (called by `init`) is not modelled, so boundary volumes psi stay
  as the builders set them (0).
- `computeVolume` (called by `computeStats`) is not modelled. It divides by each density,
  which may be zero, and its result `real_volume` is never read by the core.
- `setParameters` is not modelled. The constructor takes the derived parameters (`h`, mass,
  rest density, particles per cell, `maxEta`, `dt`) as a value instead of a resolution.
- The sphere, hemisphere, disk, mesh and particle-sphere builders, `getGravity`, and the
  unused surface-particle count at the end of `computeSurfaceParticle` are not modelled.
- The grid helper `GridUtility` is not part of this model; `GridInfo.IsInside(id)` is taken to mean 0 <= id < size, which the bucket writes need to stay in bounds. Its cell id, world-to-grid, 27-neighbour and update functions are
  function-valued data in `GridInfo` and `System.gridFor`. The exhaustiveness lemmas assume
  what the search needs: the 27-cell block covers the radius (`GridInfo.Covers`), and every
  cell id the 27-neighbour function returns lies in [0, size) (`ValidGrid`, through
  `CellsInRange`).
- `mortonNumber` is a parameter of the system.
- A particle source is a function from time to the particles it emits.
- The `Particle(x, v)` constructor is not part of this model; `Particles.NewParticle` gives
  the new particle zero density, pressure, normal and force fields, empty neighbour lists, and
  `isSurface` false.
- The `Boundary(x, v)` constructor is not part of this model; `AddBoundaryParticle`
  gives the sample a volume of 0, as every other builder does.
- Hokusai.System.PressureSolve: the source loop has no iteration cap. The model runs at most
  2 + extra passes, with `extra` a parameter, and promises the stopping guarantee only when
  it stops before the cap.
- Hokusai.System.Simulate: it does not restate the counter updates (`Integration` states
  them). It also does not state that the grid size and the boundary grid are kept.
- Hokusai.System.CreateParticleVolume: requires that particleMax <= 0 or that floor(width/spacing) and floor(depth/spacing) are both at least 0. On the excluded inputs the code's while loop never ends: every layer is empty, so the count never grows (`Populate.EmptyLayerWhenSpanNegative`). The model does not describe that non-terminating run.
- A zero spacing in `addParticleBox(width, height, depth, spacing)` or `createParticleVolume` divides
  by zero in the code (hokusai_3d/hokusai/src/system.cpp:760-762 and 782-783), which is undefined there;
  `AddParticleBoxSpaced` and `CreateParticleVolume` require a non-zero spacing.
- The conversion of `floor(scale/h)` and the other spans to the code's `int` can overflow;
  the model's integers are unbounded, so it does not capture that overflow.
- Hokusai.System.MortonSort: `std::sort` is modelled by an insertion sort. The sort promises
  only sortedness and permutation, as `std::sort` does; ties may come out in either order.

## Findings

| source | as written | input that shows it | evidently intended | confidence | as-written member | corrected member |
|---|---|---|---|---|---|---|
| hokusai_3d/hokusai/src/system.cpp:596-660 | the face loops of addBoundaryBox place the in-plane coordinates at i*h and j*h, measured from the world origin rather than from the box's offset | offset (-4,-4,-4), scale (8,8,8), h = 1: the bottom face contains (8,-4,0), outside the box [-4,4]^3 | in-plane coordinates offset + i*h and offset + j*h, so that every sample lies on the box (the grid is set around the box at line 662) | not executed | Populate.AsWrittenBoxLeavesItsExtent | Populate.BoundaryBoxWithinExtent |
