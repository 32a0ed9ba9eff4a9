/** `computeRho`: the SPH density of a particle as the kernel-weighted sum over its neighbour
    lists. The kernel itself (the Monaghan cubic spline) is an abstract function. */
module Density {
  import opened Geometry
  import opened Particles

  ghost predicate NonNegativeKernel(kernel: Vec3 -> real) {
    forall d :: kernel(d) >= 0.0
  }

  /** The fluid part: mass times the kernel value of the offset to each listed fluid
      neighbour, in list order. */
  function FluidDensity(xs: seq<Vec3>, x: Vec3, nbrs: seq<int>, mass: real, kernel: Vec3 -> real): (r: real)
    requires forall t :: 0 <= t < |nbrs| ==> 0 <= nbrs[t] < |xs|
    ensures mass >= 0.0 && NonNegativeKernel(kernel) ==> r >= 0.0
  {
    if |nbrs| == 0 then 0.0
    else
      FluidDensity(xs, x, nbrs[..|nbrs| - 1], mass, kernel)
        + mass * kernel(x.Minus(xs[nbrs[|nbrs| - 1]]))
  }

  /** The boundary part: each listed boundary sample's kernel value weighted by its volume
      psi. */
  function BoundaryDensity(bs: seq<Boundary>, x: Vec3, nbrs: seq<int>, kernel: Vec3 -> real): (r: real)
    requires forall t :: 0 <= t < |nbrs| ==> 0 <= nbrs[t] < |bs|
    ensures NonNegativeKernel(kernel) && (forall j :: 0 <= j < |bs| ==> bs[j].psi >= 0.0) ==> r >= 0.0
  {
    if |nbrs| == 0 then 0.0
    else
      BoundaryDensity(bs, x, nbrs[..|nbrs| - 1], kernel)
        + kernel(x.Minus(bs[nbrs[|nbrs| - 1]].x)) * bs[nbrs[|nbrs| - 1]].psi
  }

  /** The density `computeRho(i)` stores in particle i. */
  function Rho(ps: seq<Particle>, bs: seq<Boundary>, i: int, mass: real, kernel: Vec3 -> real): real
    requires 0 <= i < |ps|
    requires forall t :: 0 <= t < |ps[i].fluidNeighbor| ==> 0 <= ps[i].fluidNeighbor[t] < |ps|
    requires forall t :: 0 <= t < |ps[i].boundaryNeighbor| ==> 0 <= ps[i].boundaryNeighbor[t] < |bs|
  {
    FluidDensity(Positions(ps), ps[i].x, ps[i].fluidNeighbor, mass, kernel)
      + BoundaryDensity(bs, ps[i].x, ps[i].boundaryNeighbor, kernel)
  }

  /** With a non-negative kernel, every listed fluid neighbour contributes at least its own
      term to the fluid density. */
  lemma {:induction false} FluidDensityCountsEachNeighbor(xs: seq<Vec3>, x: Vec3, nbrs: seq<int>, mass: real,
                                                          kernel: Vec3 -> real, j: int)
    requires forall t :: 0 <= t < |nbrs| ==> 0 <= nbrs[t] < |xs|
    requires mass >= 0.0 && NonNegativeKernel(kernel) && j in nbrs
    ensures 0 <= j < |xs| && FluidDensity(xs, x, nbrs, mass, kernel) >= mass * kernel(x.Minus(xs[j]))
  {
    var last := nbrs[|nbrs| - 1];
    if j != last {
      assert j in nbrs[..|nbrs| - 1] by {
        var t :| 0 <= t < |nbrs| && nbrs[t] == j;
        assert nbrs[..|nbrs| - 1][t] == j;
      }
      FluidDensityCountsEachNeighbor(xs, x, nbrs[..|nbrs| - 1], mass, kernel, j);
      assert kernel(x.Minus(xs[last])) >= 0.0;
    }
  }

  /** A particle that lists itself among its fluid neighbours, as the neighbour search always
      does, has a density of at least its own kernel peak mass * W(0) when the kernel and the
      boundary volumes are non-negative. */
  lemma DensityIncludesSelf(ps: seq<Particle>, bs: seq<Boundary>, i: int, mass: real, kernel: Vec3 -> real)
    requires 0 <= i < |ps|
    requires forall t :: 0 <= t < |ps[i].fluidNeighbor| ==> 0 <= ps[i].fluidNeighbor[t] < |ps|
    requires forall t :: 0 <= t < |ps[i].boundaryNeighbor| ==> 0 <= ps[i].boundaryNeighbor[t] < |bs|
    requires i in ps[i].fluidNeighbor
    requires mass >= 0.0 && NonNegativeKernel(kernel) && forall j :: 0 <= j < |bs| ==> bs[j].psi >= 0.0
    ensures Rho(ps, bs, i, mass, kernel) >= mass * kernel(Zero)
  {
    FluidDensityCountsEachNeighbor(Positions(ps), ps[i].x, ps[i].fluidNeighbor, mass, kernel, i);
    assert ps[i].x.Minus(ps[i].x) == Zero;
  }
}
