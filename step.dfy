/** The per-particle phases of one simulation step, as functions of the particle array.

    Each `...Sweep(ps, ..., k)` is the array after the phase's loop has handled particles
    0..k-1 in index order, each call seeing the writes of the earlier ones, as a sequential run
    of the loop does. The contracts say which fields a phase writes and, where it can be shown,
    that the value written does not depend on the order of the loop (the loops are OpenMP
    parallel loops in the system). */
module Step {
  import opened Geometry
  import opened Particles
  import opened Physics
  import opened Pressure
  import opened Density
  import opened Surface
  import opened SpatialGrid

  /** `computeRho` for every particle, in index order: only densities are written. */
  function RhoSweep(ps: seq<Particle>, bs: seq<Boundary>, mass: real, kernel: Vec3 -> real, k: nat): (r: seq<Particle>)
    requires k <= |ps| && NeighborsInRange(ps, |bs|)
    ensures |r| == |ps|
    ensures forall i :: 0 <= i < |ps| ==> r[i] == ps[i].(rho := r[i].rho)
    ensures forall i :: k <= i < |ps| ==> r[i] == ps[i]
  {
    if k == 0 then ps
    else
      var q := RhoSweep(ps, bs, mass, kernel, k - 1);
      NeighborsKept(ps, q, |bs|);
      q[k - 1 := q[k - 1].(rho := Rho(q, bs, k - 1, mass, kernel))]
  }

  /** The density of particle i does not depend on the densities stored in the array. */
  lemma RhoIgnoresDensities(q: seq<Particle>, ps: seq<Particle>, bs: seq<Boundary>, i: int, mass: real,
                            kernel: Vec3 -> real)
    requires 0 <= i < |ps| && NeighborsInRange(ps, |bs|)
    requires |q| == |ps| && forall j :: 0 <= j < |ps| ==> q[j] == ps[j].(rho := q[j].rho)
    ensures forall t :: 0 <= t < |q[i].fluidNeighbor| ==> 0 <= q[i].fluidNeighbor[t] < |q|
    ensures forall t :: 0 <= t < |q[i].boundaryNeighbor| ==> 0 <= q[i].boundaryNeighbor[t] < |bs|
    ensures Rho(q, bs, i, mass, kernel) == Rho(ps, bs, i, mass, kernel)
  {
    assert Positions(q) == Positions(ps);
  }

  /** Particle pi after `getNearestNeighbor(i, radius)`: its two lists hold the fluid particles
      and the boundary samples of the buckets of the 27 cells around it that lie strictly
      within the radius, cell after cell; nothing else changes. */
  function WithNeighbors(pi: Particle, xs: seq<Vec3>, bxs: seq<Vec3>, fluidGrid: seq<seq<int>>,
                         boundaryGrid: seq<seq<int>>, g: ValidGrid, radius: real): (r: Particle)
    requires |fluidGrid| == g.size && |boundaryGrid| == g.size
    requires IndicesBelow(fluidGrid, |xs|) && IndicesBelow(boundaryGrid, |bxs|)
    ensures r == pi.(fluidNeighbor := r.fluidNeighbor, boundaryNeighbor := r.boundaryNeighbor)
    ensures forall t :: 0 <= t < |r.fluidNeighbor| ==> 0 <= r.fluidNeighbor[t] < |xs|
    ensures forall t :: 0 <= t < |r.boundaryNeighbor| ==> 0 <= r.boundaryNeighbor[t] < |bxs|
  {
    var cells := g.neighbors27(pi.x, radius);
    NearInInRange(cells, fluidGrid, xs, pi.x, radius * radius);
    NearInInRange(cells, boundaryGrid, bxs, pi.x, radius * radius);
    pi.(fluidNeighbor := NearIn(cells, fluidGrid, xs, pi.x, radius * radius),
        boundaryNeighbor := NearIn(cells, boundaryGrid, bxs, pi.x, radius * radius))
  }

  /** The neighbour loop of `prepareGrid`: every particle's lists searched in the given
      buckets. Positions do not change, so the order of the loop does not matter, and every
      stored index names an existing particle or sample. */
  ghost function Searched(ps: seq<Particle>, bs: seq<Boundary>, fluidGrid: seq<seq<int>>,
                          boundaryGrid: seq<seq<int>>, g: ValidGrid, radius: real): (r: seq<Particle>)
    requires |fluidGrid| == g.size && |boundaryGrid| == g.size
    requires IndicesBelow(fluidGrid, |ps|) && IndicesBelow(boundaryGrid, |bs|)
    ensures |r| == |ps| && NeighborsInRange(r, |bs|)
    ensures forall i :: 0 <= i < |ps| ==>
      r[i] == WithNeighbors(ps[i], Positions(ps), BoundaryPositions(bs), fluidGrid, boundaryGrid, g, radius)
  {
    var xs, bxs := Positions(ps), BoundaryPositions(bs);
    var r := seq(|ps|, i requires 0 <= i < |ps| =>
      WithNeighbors(ps[i], xs, bxs, fluidGrid, boundaryGrid, g, radius));
    r
  }

  /** With the fluid buckets freshly rebuilt over xs and a 27-cell block that covers the
      radius, the search lists exactly the particles of in-grid cells strictly closer than the
      radius; with the boundary buckets built over bxs, likewise for the boundary list. */
  lemma WithNeighborsIsExhaustive(pi: Particle, xs: seq<Vec3>, bxs: seq<Vec3>, fluidGrid: seq<seq<int>>,
                                  boundaryGrid: seq<seq<int>>, g: ValidGrid, radius: real)
    requires |boundaryGrid| == g.size && IndicesBelow(boundaryGrid, |bxs|) && IndicesBelow(fluidGrid, |xs|)
    requires Bucketed(fluidGrid, xs, g) && g.Covers(radius)
    ensures forall j :: j in WithNeighbors(pi, xs, bxs, fluidGrid, boundaryGrid, g, radius).fluidNeighbor <==>
      0 <= j < |xs| && g.IsInside(g.cellId(xs[j])) && Dist2(xs[j], pi.x) < radius * radius
    ensures Bucketed(boundaryGrid, bxs, g) ==>
      forall j :: j in WithNeighbors(pi, xs, bxs, fluidGrid, boundaryGrid, g, radius).boundaryNeighbor <==>
        0 <= j < |bxs| && g.IsInside(g.cellId(bxs[j])) && Dist2(bxs[j], pi.x) < radius * radius
  {
    NeighborSearchIsExhaustive(g, fluidGrid, xs, pi.x, radius);
    if Bucketed(boundaryGrid, bxs, g) {
      NeighborSearchIsExhaustive(g, boundaryGrid, bxs, pi.x, radius);
    }
  }

  /** A particle whose cell is in the rebuilt grid finds itself: it is at distance zero from
      its own position, strictly inside any non-zero radius. */
  lemma WithNeighborsListsItself(ps: seq<Particle>, i: int, bxs: seq<Vec3>, fluidGrid: seq<seq<int>>,
                                 boundaryGrid: seq<seq<int>>, g: ValidGrid, radius: real)
    requires 0 <= i < |ps| && radius != 0.0
    requires |boundaryGrid| == g.size && IndicesBelow(boundaryGrid, |bxs|) && IndicesBelow(fluidGrid, |ps|)
    requires Bucketed(fluidGrid, Positions(ps), g) && g.Covers(radius) && g.IsInside(g.cellId(ps[i].x))
    ensures i in WithNeighbors(ps[i], Positions(ps), bxs, fluidGrid, boundaryGrid, g, radius).fluidNeighbor
  {
    var xs := Positions(ps);
    var found := WithNeighbors(ps[i], xs, bxs, fluidGrid, boundaryGrid, g, radius).fluidNeighbor;
    assert i in found by {
      SelfWithinRadius(ps[i].x, radius);
      assert xs[i] == ps[i].x;
      WithNeighborsIsExhaustive(ps[i], xs, bxs, fluidGrid, boundaryGrid, g, radius);
    }
  }

  /** A point is strictly within any non-zero radius of itself. */
  lemma SelfWithinRadius(x: Vec3, r: real)
    requires r != 0.0
    ensures Dist2(x, x) < r * r
  {
    SquarePositive(r);
    calc {
      Dist2(x, x);
    ==
      0.0;
    <
      r * r;
    }
  }

  lemma SquarePositive(r: real)
    requires r != 0.0
    ensures r * r > 0.0
  {
    if r < 0.0 {
      assert r * r == (-r) * (-r);
    }
  }

  /** The last loop of `init`: every particle flagged as on the surface. */
  function AllSurface(ps: seq<Particle>): (r: seq<Particle>)
    ensures |r| == |ps| && forall i :: 0 <= i < |ps| ==> r[i] == ps[i].(isSurface := true)
  {
    seq(|ps|, i requires 0 <= i < |ps| => ps[i].(isSurface := true))
  }

  /** `computeNormal` for every particle: only the normal is written. */
  function NormalSweep(ps: seq<Particle>, physics: Physics, k: nat): (r: seq<Particle>)
    requires k <= |ps|
    ensures |r| == |ps|
    ensures forall i :: 0 <= i < |ps| ==> r[i] == ps[i].(n := r[i].n)
    ensures forall i :: k <= i < |ps| ==> r[i] == ps[i]
  {
    if k == 0 then ps
    else
      var q := NormalSweep(ps, physics, k - 1);
      q[k - 1 := q[k - 1].(n := physics.normal(q, k - 1))]
  }

  /** `computeSurfaceParticle` as a function: each flag says whether the particle is on the
      surface of the array it was computed from. */
  ghost function Surfaced(ps: seq<Particle>, particlePerCell: real): (r: seq<Particle>)
    ensures |r| == |ps|
    ensures forall k :: 0 <= k < |ps| ==> r[k] == ps[k].(isSurface := OnSurface(ps, particlePerCell, k))
  {
    seq(|ps|, k requires 0 <= k < |ps| => ps[k].(isSurface := OnSurface(ps, particlePerCell, k)))
  }

  /** One pass of the third loop of `predictAdvection` on particle i: `computeAdvectionForces`
      (the pair forces plus gravity times mass), `predictVelocity` and `computeDii`. */
  function AdvectParticle(q: seq<Particle>, bs: seq<Boundary>, physics: Physics, gravity: Vec3,
                          mass: real, dt: real, i: int): (r: seq<Particle>)
    requires 0 <= i < |q| && mass > 0.0
    ensures |r| == |q| && forall j :: 0 <= j < |q| && j != i ==> r[j] == q[j]
    ensures r[i] == q[i].(fAdv := r[i].fAdv, vAdv := r[i].vAdv, diiFluid := r[i].diiFluid,
                          diiBoundary := r[i].diiBoundary)
    ensures r[i].vAdv == q[i].v.Plus(r[i].fAdv.Scale(dt / mass))
  {
    var withForce := q[i].(fAdv := physics.advectionForce(q, bs, i).Plus(gravity.Scale(mass)));
    var predicted := withForce.(vAdv := withForce.v.Plus(withForce.fAdv.Scale(dt / mass)));
    var q2 := q[i := predicted];
    var d := physics.dii(q2, bs, i);
    q2[i := predicted.(diiFluid := d.0, diiBoundary := d.1)]
  }

  /** The third loop of `predictAdvection`: only the advection force, the predicted velocity
      and the self-response coefficients are written, and every predicted velocity is the
      velocity advanced by dt under the advection force. */
  function AdvectSweep(ps: seq<Particle>, bs: seq<Boundary>, physics: Physics, gravity: Vec3,
                       mass: real, dt: real, k: nat): (r: seq<Particle>)
    requires k <= |ps| && mass > 0.0
    ensures |r| == |ps|
    ensures forall i :: 0 <= i < |ps| ==>
      r[i] == ps[i].(fAdv := r[i].fAdv, vAdv := r[i].vAdv, diiFluid := r[i].diiFluid,
                     diiBoundary := r[i].diiBoundary)
    ensures forall i :: 0 <= i < k ==> r[i].vAdv == ps[i].v.Plus(r[i].fAdv.Scale(dt / mass))
    ensures forall i :: k <= i < |ps| ==> r[i] == ps[i]
  {
    if k == 0 then ps
    else AdvectParticle(AdvectSweep(ps, bs, physics, gravity, mass, dt, k - 1), bs, physics, gravity, mass, dt, k - 1)
  }

  /** The density `predictRho` predicts: rho advanced by dt at the given rate of change. */
  function AdvancedDensity(rho: real, dt: real, rate: real): real {
    rho + dt * rate
  }

  /** One pass of the last loop of `predictAdvection` on particle i: `predictRho`,
      `initializePressure` and `computeAii`. */
  function PredictParticle(q: seq<Particle>, bs: seq<Boundary>, physics: Physics, dt: real, i: int): (r: seq<Particle>)
    requires 0 <= i < |q|
    ensures |r| == |q| && forall j :: 0 <= j < |q| && j != i ==> r[j] == q[j]
    ensures r[i] == q[i].(rhoAdv := r[i].rhoAdv, pL := r[i].pL, aii := r[i].aii)
    ensures r[i].pL == WarmStart(q[i]).pL
  {
    var predicted := q[i].(rhoAdv := AdvancedDensity(q[i].rho, dt, physics.densityRate(q, bs, i)));
    var q2 := q[i := WarmStart(predicted)];
    q2[i := q2[i].(aii := physics.aii(q2, bs, i))]
  }

  /** The last loop of `predictAdvection`: only the predicted density, the solver's starting
      pressure and the diagonal coefficient are written, and every particle starts the solver
      from half of its previous pressure. */
  function PredictSweep(ps: seq<Particle>, bs: seq<Boundary>, physics: Physics, dt: real, k: nat): (r: seq<Particle>)
    requires k <= |ps|
    ensures |r| == |ps|
    ensures forall i :: 0 <= i < |ps| ==> r[i] == ps[i].(rhoAdv := r[i].rhoAdv, pL := r[i].pL, aii := r[i].aii)
    ensures forall i :: 0 <= i < k ==> 2.0 * r[i].pL == ps[i].p
    ensures forall i :: k <= i < |ps| ==> r[i] == ps[i]
  {
    if k == 0 then ps
    else PredictParticle(PredictSweep(ps, bs, physics, dt, k - 1), bs, physics, dt, k - 1)
  }

  /** `computeSumDijPj` for every particle: only the off-diagonal accumulator is written. */
  function SumDijSweep(ps: seq<Particle>, physics: Physics, k: nat): (r: seq<Particle>)
    requires k <= |ps|
    ensures |r| == |ps|
    ensures forall i :: 0 <= i < |ps| ==> r[i] == ps[i].(sumDij := r[i].sumDij)
    ensures forall i :: k <= i < |ps| ==> r[i] == ps[i]
  {
    if k == 0 then ps
    else
      var q := SumDijSweep(ps, physics, k - 1);
      q[k - 1 := q[k - 1].(sumDij := physics.sumDij(q, k - 1))]
  }

  /** `computePressure` for every particle: only the pressure, the solver pressure and the
      corrected density are written, and every handled particle leaves with a non-negative
      pressure equal to its solver pressure, zero where its diagonal coefficient is
      degenerate. */
  function PressureSweep(ps: seq<Particle>, bs: seq<Boundary>, physics: Physics, restDensity: real, k: nat): (r: seq<Particle>)
    requires k <= |ps|
    ensures |r| == |ps|
    ensures forall i :: 0 <= i < |ps| ==> r[i] == ps[i].(p := r[i].p, pL := r[i].pL, rhoCorr := r[i].rhoCorr)
    ensures forall i :: 0 <= i < k ==> r[i].p == r[i].pL && r[i].p >= 0.0
    ensures forall i :: 0 <= i < k && Abs(ps[i].aii) <= Epsilon ==> r[i].p == 0.0
    ensures forall i :: k <= i < |ps| ==> r[i] == ps[i]
  {
    if k == 0 then ps
    else
      var q := PressureSweep(ps, bs, physics, restDensity, k - 1);
      q[k - 1 := RelaxPressure(q[k - 1], physics.pressureTerms(q, bs, k - 1), restDensity)]
  }

  /** One pass of the loop of `pressureSolve` before `computeError`. */
  function Iteration(ps: seq<Particle>, bs: seq<Boundary>, physics: Physics, restDensity: real): (r: seq<Particle>)
    ensures |r| == |ps|
    ensures forall i :: 0 <= i < |ps| ==>
      r[i] == ps[i].(sumDij := r[i].sumDij, p := r[i].p, pL := r[i].pL, rhoCorr := r[i].rhoCorr)
    ensures forall i :: 0 <= i < |ps| ==> r[i].p == r[i].pL && r[i].p >= 0.0
    ensures forall i :: 0 <= i < |ps| && Abs(ps[i].aii) <= Epsilon ==> r[i].p == 0.0
  {
    PressureSweep(SumDijSweep(ps, physics, |ps|), bs, physics, restDensity, |ps|)
  }

  /** The particle array after l passes of the solver loop. After at least one pass every
      pressure is clamped and equal to the solver pressure, whatever it was before. */
  function Iterations(ps: seq<Particle>, bs: seq<Boundary>, physics: Physics, restDensity: real, l: nat): (r: seq<Particle>)
    ensures |r| == |ps|
    ensures forall i :: 0 <= i < |ps| ==>
      r[i] == ps[i].(sumDij := r[i].sumDij, p := r[i].p, pL := r[i].pL, rhoCorr := r[i].rhoCorr)
    ensures l >= 1 ==> forall i :: 0 <= i < |ps| ==> r[i].p == r[i].pL && r[i].p >= 0.0
    ensures l >= 1 ==> forall i :: 0 <= i < |ps| && Abs(ps[i].aii) <= Epsilon ==> r[i].p == 0.0
  {
    if l == 0 then ps else Iteration(Iterations(ps, bs, physics, restDensity, l - 1), bs, physics, restDensity)
  }

  /** Every pass m with 2 <= m < l satisfied `exceeded`. */
  ghost predicate HeldFromSecond(exceeded: nat -> bool, l: nat) {
    l <= 2 || (HeldFromSecond(exceeded, l - 1) && exceeded(l - 1))
  }

  lemma {:induction false} HeldFromSecondEveryPass(exceeded: nat -> bool, l: nat)
    ensures HeldFromSecond(exceeded, l) <==> forall m :: 2 <= m < l ==> exceeded(m)
  {
    if l > 2 {
      HeldFromSecondEveryPass(exceeded, l - 1);
    }
  }

  /** The solver had reason to run its passes beyond the second: after each pass m with
      2 <= m < l, the mean corrected density still exceeded the tolerance. */
  ghost predicate KeptGoing(ps: seq<Particle>, bs: seq<Boundary>, physics: Physics, restDensity: real,
                            maxEta: real, l: nat)
  {
    HeldFromSecond((m: nat) => Exceeds(MeanRhoCorr(Iterations(ps, bs, physics, restDensity, m)), restDensity, maxEta), l)
  }

  /** The first three phases of `predictAdvection`: densities, normals and surface flags;
      nothing else is written. */
  ghost function Classified(ps: seq<Particle>, bs: seq<Boundary>, physics: Physics, params: Params): (r: seq<Particle>)
    requires NeighborsInRange(ps, |bs|)
    ensures |r| == |ps|
    ensures forall i :: 0 <= i < |ps| ==> r[i] == ps[i].(rho := r[i].rho, n := r[i].n, isSurface := r[i].isSurface)
  {
    var rho := RhoSweep(ps, bs, params.mass, physics.kernel, |ps|);
    Surfaced(NormalSweep(rho, physics, |ps|), params.particlePerCell)
  }

  /** The particle array after `predictAdvection`: the classification, then advection and the
      predicted densities with the solver's starting point. Positions, velocities, pressures
      and neighbour lists are untouched, every predicted velocity is the velocity advanced by
      dt under the advection force, and every solver pressure starts at half of the previous
      pressure. */
  ghost function Predicted(ps: seq<Particle>, bs: seq<Boundary>, physics: Physics, params: Params,
                           gravity: Vec3): (r: seq<Particle>)
    requires NeighborsInRange(ps, |bs|) && params.mass > 0.0
    ensures |r| == |ps|
    ensures forall i :: 0 <= i < |ps| ==>
      r[i] == ps[i].(rho := r[i].rho, n := r[i].n, isSurface := r[i].isSurface, fAdv := r[i].fAdv,
                     vAdv := r[i].vAdv, diiFluid := r[i].diiFluid, diiBoundary := r[i].diiBoundary,
                     rhoAdv := r[i].rhoAdv, pL := r[i].pL, aii := r[i].aii)
    ensures forall i :: 0 <= i < |ps| ==>
      r[i].vAdv == ps[i].v.Plus(r[i].fAdv.Scale(params.dt / params.mass)) && 2.0 * r[i].pL == ps[i].p
  {
    var classified := Classified(ps, bs, physics, params);
    var advected := AdvectSweep(classified, bs, physics, gravity, params.mass, params.dt, |ps|);
    PredictSweep(advected, bs, physics, params.dt, |ps|)
  }

  /** `computePressureForce` for every particle: only the pressure force is written. */
  function ForceSweep(ps: seq<Particle>, bs: seq<Boundary>, physics: Physics, k: nat): (r: seq<Particle>)
    requires k <= |ps|
    ensures |r| == |ps|
    ensures forall i :: 0 <= i < |ps| ==> r[i] == ps[i].(fP := r[i].fP)
    ensures forall i :: k <= i < |ps| ==> r[i] == ps[i]
  {
    if k == 0 then ps
    else
      var q := ForceSweep(ps, bs, physics, k - 1);
      q[k - 1 := q[k - 1].(fP := physics.pressureForce(q, bs, k - 1))]
  }

  /** The update of one particle in `integration`: symplectic Euler from the predicted
      velocity and the pressure force. */
  function Advance(pi: Particle, mass: real, dt: real): Particle
    requires mass > 0.0
  {
    var v := pi.vAdv.Plus(pi.fP.Scale(dt / mass));
    pi.(v := v, x := pi.x.Plus(v.Scale(dt)))
  }

  /** The second loop of `integration`: only velocities and positions are written, and each
      particle moves by dt times its new velocity, computed from its own fields alone. */
  function IntegrateSweep(ps: seq<Particle>, mass: real, dt: real, k: nat): (r: seq<Particle>)
    requires k <= |ps| && mass > 0.0
    ensures |r| == |ps|
    ensures forall i :: 0 <= i < |ps| ==> r[i] == ps[i].(v := r[i].v, x := r[i].x)
    ensures forall i :: 0 <= i < k ==>
      r[i].v == ps[i].vAdv.Plus(ps[i].fP.Scale(dt / mass)) && r[i].x == ps[i].x.Plus(r[i].v.Scale(dt))
    ensures forall i :: k <= i < |ps| ==> r[i] == ps[i]
  {
    if k == 0 then ps
    else
      var q := IntegrateSweep(ps, mass, dt, k - 1);
      q[k - 1 := Advance(q[k - 1], mass, dt)]
  }

  /** Moving the particles leaves their pressures and solver pressures as the solver left
      them. */
  lemma IntegrationKeepsPressures(ps: seq<Particle>, bs: seq<Boundary>, physics: Physics, mass: real, dt: real)
    requires mass > 0.0
    ensures var r := IntegrateSweep(ForceSweep(ps, bs, physics, |ps|), mass, dt, |ps|);
      forall i :: 0 <= i < |ps| ==> r[i].p == ps[i].p && r[i].pL == ps[i].pL
  {
  }

  /** After a step with at least one solver pass, every particle that was there before the
      sources emitted leaves it with a non-negative pressure equal to its solver pressure. */
  lemma StepLeavesPressuresClamped(ps: seq<Particle>, bs: seq<Boundary>, physics: Physics, restDensity: real,
                                   l: nat, mass: real, dt: real, emitted: seq<Particle>)
    requires l >= 1 && mass > 0.0
    ensures var solved := Iterations(ps, bs, physics, restDensity, l);
      var r := IntegrateSweep(ForceSweep(solved, bs, physics, |solved|), mass, dt, |solved|) + emitted;
      forall i :: 0 <= i < |ps| ==> r[i].p == r[i].pL && r[i].p >= 0.0
  {
    var solved := Iterations(ps, bs, physics, restDensity, l);
    IntegrationKeepsPressures(solved, bs, physics, mass, dt);
  }

  /** `translateParticles`: every position shifted by t, nothing else changed. */
  function Translated(ps: seq<Particle>, t: Vec3): (r: seq<Particle>)
    ensures |r| == |ps| && forall i :: 0 <= i < |ps| ==> r[i] == ps[i].(x := ps[i].x.Plus(t))
  {
    seq(|ps|, i requires 0 <= i < |ps| => ps[i].(x := ps[i].x.Plus(t)))
  }

  /** `translateBoundaries`: every boundary sample shifted by t. */
  function TranslatedBoundaries(bs: seq<Boundary>, t: Vec3): (r: seq<Boundary>)
    ensures |r| == |bs| && forall i :: 0 <= i < |bs| ==> r[i] == bs[i].(x := bs[i].x.Plus(t))
  {
    seq(|bs|, i requires 0 <= i < |bs| => bs[i].(x := bs[i].x.Plus(t)))
  }

  /** Two translations compose into one by the sum of the offsets, and a translation is undone
      by the opposite one. */
  lemma TranslationsCompose(ps: seq<Particle>, a: Vec3, b: Vec3)
    ensures Translated(Translated(ps, a), b) == Translated(ps, a.Plus(b))
    ensures Translated(Translated(ps, a), a.Scale(-1.0)) == ps
  {
    var twice := Translated(Translated(ps, a), b);
    forall i | 0 <= i < |ps| ensures twice[i] == Translated(ps, a.Plus(b))[i] {
      assert ps[i].x.Plus(a).Plus(b) == ps[i].x.Plus(a.Plus(b));
    }
    var back := Translated(Translated(ps, a), a.Scale(-1.0));
    forall i | 0 <= i < |ps| ensures back[i] == ps[i] {
      assert ps[i].x.Plus(a).Plus(a.Scale(-1.0)) == ps[i].x;
    }
  }

  /** What the particle sources emit at time t, source by source, in order. */
  function Emitted(sources: seq<real -> seq<Particle>>, t: real): (r: seq<Particle>)
    ensures |sources| == 0 ==> r == []
    ensures forall s :: 0 <= s < |sources| ==> |sources[s](t)| <= |r|
    ensures forall q :: q in r <==> exists s :: 0 <= s < |sources| && q in sources[s](t)
  {
    if |sources| == 0 then []
    else
      var init := sources[..|sources| - 1];
      assert forall s :: 0 <= s < |init| ==> init[s] == sources[s];
      Emitted(init, t) + sources[|sources| - 1](t)
  }

  /** The number of particles the sources hand back at time t, counted from the first
      source on. */
  function EmittedCount(sources: seq<real -> seq<Particle>>, t: real): nat {
    if |sources| == 0 then 0 else |sources[0](t)| + EmittedCount(sources[1..], t)
  }

  /** Counting from the last source on gives the same total. */
  lemma {:induction false} EmittedCountLast(sources: seq<real -> seq<Particle>>, t: real)
    requires |sources| > 0
    ensures EmittedCount(sources, t) == EmittedCount(sources[..|sources| - 1], t) + |sources[|sources| - 1](t)|
    decreases |sources|
  {
    if |sources| > 1 {
      EmittedCountLast(sources[1..], t);
      assert sources[1..][..|sources[1..]| - 1] == sources[..|sources| - 1][1..];
    }
  }

  /** `applySources` appends exactly as many particles as the sources hand back. */
  lemma {:induction false} EmittedLength(sources: seq<real -> seq<Particle>>, t: real)
    ensures |Emitted(sources, t)| == EmittedCount(sources, t)
    decreases |sources|
  {
    if |sources| > 0 {
      EmittedLength(sources[..|sources| - 1], t);
      EmittedCountLast(sources, t);
    }
  }

  /** The sum of the densities of all particles. */
  function SumRho(ps: seq<Particle>): real {
    if |ps| == 0 then 0.0 else SumRho(ps[..|ps| - 1]) + ps[|ps| - 1].rho
  }
}
