/** The two populations of the simulation: fluid particles and static boundary samples. */
module Particles {
  import opened Geometry

  /** A fluid particle with every per-particle field the step reads or writes. */
  datatype Particle = Particle(
    x: Vec3,                  // position
    v: Vec3,                  // velocity
    vAdv: Vec3,               // velocity predicted from the advection forces
    fAdv: Vec3,               // advection force
    fP: Vec3,                 // pressure force
    n: Vec3,                  // surface normal
    rho: real,                // density
    rhoAdv: real,             // density predicted from vAdv
    rhoCorr: real,            // density corrected by the current pressure estimate
    p: real,                  // pressure
    pL: real,                 // pressure of the current solver pass
    aii: real,                // diagonal pressure coefficient
    diiFluid: Vec3,           // self-response coefficient, fluid part
    diiBoundary: Vec3,        // self-response coefficient, boundary part
    sumDij: Vec3,             // off-diagonal pressure-response accumulator
    isSurface: bool,
    fluidNeighbor: seq<int>,    // indices into the particle array
    boundaryNeighbor: seq<int>) // indices into the boundary array

  /** `Particle(x, v)`: a particle at x moving at v, every other field zero or empty. */
  function NewParticle(x: Vec3, v: Vec3): (r: Particle)
    ensures r.x == x && r.v == v && !r.isSurface
    ensures r.fluidNeighbor == [] && r.boundaryNeighbor == []
  {
    Particle(x, v, Zero, Zero, Zero, Zero, 0.0, 0.0, 0.0, 0.0, 0.0, 0.0, Zero, Zero, Zero,
             false, [], [])
  }

  /** A static boundary sample: position, quasi-static velocity and its volume weight psi. */
  datatype Boundary = Boundary(x: Vec3, v: Vec3, psi: real)

  function Positions(ps: seq<Particle>): (r: seq<Vec3>)
    ensures |r| == |ps| && forall i :: 0 <= i < |ps| ==> r[i] == ps[i].x
  {
    seq(|ps|, i requires 0 <= i < |ps| => ps[i].x)
  }

  function BoundaryPositions(bs: seq<Boundary>): (r: seq<Vec3>)
    ensures |r| == |bs| && forall i :: 0 <= i < |bs| ==> r[i] == bs[i].x
  {
    seq(|bs|, i requires 0 <= i < |bs| => bs[i].x)
  }

  /** Every neighbour index stored in every particle names an existing particle or boundary
      sample: what the phases that walk the neighbour lists need. */
  ghost predicate NeighborsInRange(ps: seq<Particle>, boundaryCount: int) {
    && (forall i, t :: 0 <= i < |ps| && 0 <= t < |ps[i].fluidNeighbor| ==>
          0 <= ps[i].fluidNeighbor[t] < |ps|)
    && (forall i, t :: 0 <= i < |ps| && 0 <= t < |ps[i].boundaryNeighbor| ==>
          0 <= ps[i].boundaryNeighbor[t] < boundaryCount)
  }

  /** Neighbour lists that are the same particle by particle stay in range. */
  lemma NeighborsKept(ps: seq<Particle>, qs: seq<Particle>, boundaryCount: int)
    requires NeighborsInRange(ps, boundaryCount) && |qs| == |ps|
    requires forall i :: 0 <= i < |ps| ==>
      qs[i].fluidNeighbor == ps[i].fluidNeighbor && qs[i].boundaryNeighbor == ps[i].boundaryNeighbor
    ensures NeighborsInRange(qs, boundaryCount)
  {
  }
}
