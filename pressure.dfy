/** The control logic of the relaxed Jacobi pressure solver: the per-particle relaxation with
    its clamp and degenerate-coefficient guard, the warm start, and the mean corrected density
    that decides when the solver stops. */
module Pressure {
  import opened Particles

  /** `std::numeric_limits<double>::epsilon()`, 2^-52. */
  const Epsilon: real := 1.0 / 4503599627370496.0

  /** The relaxation factor omega of `computePressure`. */
  const Omega: real := 0.5

  function Abs(x: real): real { if x < 0.0 then -x else x }

  function Max(a: real, b: real): (r: real)
    ensures r >= a && r >= b && (r == a || r == b)
  {
    if a < b then b else a
  }

  /** A floating-point mean: dividing by a particle count of zero yields NaN, which compares
      false against everything. */
  datatype Average = NaN | Value(v: real)

  function Mean(sum: real, n: int): (r: Average)
    requires n >= 0
    ensures r.NaN? <==> n == 0
    ensures r.Value? ==> r.v * (n as real) == sum
  {
    if n == 0 then NaN else Value(sum / (n as real))
  }

  /** The stop test of `pressureSolve`: the solver goes on while the mean corrected density
      exceeds the rest density by more than maxEta. Only the excess counts; a mean below the
      rest density, or NaN, never keeps the solver going. */
  predicate Exceeds(a: Average, restDensity: real, maxEta: real) {
    a.Value? && a.v - restDensity > maxEta
  }

  /** `computePressure` once the neighbour sums (fsum + bsum) are known as `terms`: a relaxed
      Jacobi step toward the pressure that would bring the corrected density to the rest
      density, zero when the diagonal coefficient is too small to divide by, clamped at zero,
      and the corrected density completed with this particle's own previous-pressure term. */
  function RelaxPressure(pi: Particle, terms: real, restDensity: real): (r: Particle)
    ensures r.p == r.pL && r.p >= 0.0
    ensures Abs(pi.aii) <= Epsilon ==> r.p == 0.0
    ensures r.rhoCorr == pi.rhoAdv + terms + pi.aii * pi.pL
    ensures r == pi.(p := r.p, pL := r.pL, rhoCorr := r.rhoCorr)
  {
    var previousPl := pi.pL;
    var rhoCorr := pi.rhoAdv + terms;
    var pl := if Abs(pi.aii) > Epsilon
      then (1.0 - Omega) * previousPl + (Omega / pi.aii) * (restDensity - rhoCorr)
      else 0.0;
    var p := Max(pl, 0.0);
    pi.(p := p, pL := p, rhoCorr := rhoCorr + pi.aii * previousPl)
  }

  /** With a usable coefficient, one relaxation moves the pressure halfway from its previous
      value to the Jacobi target (restDensity - rhoAdv - terms) / aii, then clamps at zero. */
  lemma RelaxMovesHalfway(pi: Particle, terms: real, restDensity: real)
    requires Abs(pi.aii) > Epsilon
    ensures RelaxPressure(pi, terms, restDensity).p
         == Max((pi.pL + (restDensity - pi.rhoAdv - terms) / pi.aii) / 2.0, 0.0)
  {
    var target := (restDensity - pi.rhoAdv - terms) / pi.aii;
    assert (Omega / pi.aii) * (restDensity - (pi.rhoAdv + terms)) == target / 2.0;
  }

  /** A non-negative pressure that already solves the particle's equation is a fixed point of
      the relaxation, and the corrected density it yields is exactly the rest density. */
  lemma RelaxFixedPoint(pi: Particle, terms: real, restDensity: real)
    requires Abs(pi.aii) > Epsilon && pi.pL >= 0.0
    requires pi.aii * pi.pL == restDensity - (pi.rhoAdv + terms)
    ensures RelaxPressure(pi, terms, restDensity).p == pi.pL
    ensures RelaxPressure(pi, terms, restDensity).rhoCorr == restDensity
  {
    RelaxMovesHalfway(pi, terms, restDensity);
    assert (restDensity - pi.rhoAdv - terms) / pi.aii == pi.pL;
  }

  /** `initializePressure`: the solver starts from half of the previous step's pressure. */
  function WarmStart(pi: Particle): (r: Particle)
    ensures 2.0 * r.pL == pi.p
    ensures pi.p >= 0.0 ==> r.pL >= 0.0
    ensures r == pi.(pL := r.pL)
  {
    pi.(pL := 0.5 * pi.p)
  }

  /** The sum of the corrected densities of all particles. */
  function SumRhoCorr(ps: seq<Particle>): real {
    if |ps| == 0 then 0.0 else SumRhoCorr(ps[..|ps| - 1]) + ps[|ps| - 1].rhoCorr
  }

  /** `computeError`: the mean corrected density, NaN for an empty system. */
  function MeanRhoCorr(ps: seq<Particle>): (r: Average)
    ensures r.NaN? <==> |ps| == 0
  {
    Mean(SumRhoCorr(ps), |ps|)
  }

  lemma {:induction false} SumRhoCorrBounded(ps: seq<Particle>, hi: real)
    requires forall i :: 0 <= i < |ps| ==> ps[i].rhoCorr <= hi
    ensures SumRhoCorr(ps) <= (|ps| as real) * hi
  {
    if |ps| > 0 {
      SumRhoCorrBounded(ps[..|ps| - 1], hi);
    }
  }

  /** If no particle's corrected density exceeds the rest density by more than maxEta, neither
      does their mean, so the stop test of `pressureSolve` is met. */
  lemma SolverStopsWhenEveryParticleIsWithinTolerance(ps: seq<Particle>, restDensity: real, maxEta: real)
    requires forall i :: 0 <= i < |ps| ==> ps[i].rhoCorr - restDensity <= maxEta
    ensures !Exceeds(MeanRhoCorr(ps), restDensity, maxEta)
  {
    if |ps| > 0 {
      var n := |ps| as real;
      SumRhoCorrBounded(ps, restDensity + maxEta);
      var m := MeanRhoCorr(ps).v;
      assert m * n == SumRhoCorr(ps);
      assert m * n <= n * (restDensity + maxEta);
    }
  }
}
