/** The floating-point physics the simulation step calls, kept abstract.

    Each field stands for one per-particle computation of the step whose arithmetic (kernel
    gradients, force and coefficient formulas) is not part of this model. Each takes the
    current particle array (and the boundary array) and the index of the particle being
    updated, so a phase that calls it for i = 0, 1, ... in order sees the fields already
    written for the earlier particles, as a sequential run of the loop does. */
module Physics {
  import opened Geometry
  import opened Particles

  datatype Physics = Physics(
    kernel: Vec3 -> real,                                           // MonaghanKernel value W(xi - xj)
    normal: (seq<Particle>, int) -> Vec3,                           // computeNormal
    advectionForce: (seq<Particle>, seq<Boundary>, int) -> Vec3,    // viscosity, tension, friction, adhesion
    dii: (seq<Particle>, seq<Boundary>, int) -> (Vec3, Vec3),       // computeDii: fluid and boundary parts
    densityRate: (seq<Particle>, seq<Boundary>, int) -> real,       // fdrho + bdrho of predictRho
    aii: (seq<Particle>, seq<Boundary>, int) -> real,               // computeAii
    sumDij: (seq<Particle>, int) -> Vec3,                           // computeSumDijPj
    pressureTerms: (seq<Particle>, seq<Boundary>, int) -> real,     // fsum + bsum of computePressure
    pressureForce: (seq<Particle>, seq<Boundary>, int) -> Vec3)     // computePressureForce

  /** The constants `setParameters` derives from the wished particle number and volume. */
  datatype Params = Params(
    h: real,                // smoothing radius
    mass: real,             // particle mass
    restDensity: real,
    particlePerCell: real,
    maxEta: real,           // largest accepted excess of the mean corrected density
    dt: real)               // time step

  /** Parameters a system can run with: the divisions by h and by the mass are defined. */
  type ValidParams = p: Params | p.h > 0.0 && p.mass > 0.0
    witness Params(1.0, 1.0, 0.0, 0.0, 0.0, 0.0)
}
