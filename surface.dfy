/** Surface classification: seeds by normal length or by a sparse neighbourhood, then every
    fluid neighbour of a seed. */
module Surface {
  import opened Geometry
  import opened Particles

  /** `isSurfaceParticle(i, threshold)`: the squared length of the particle's normal is
      strictly above the threshold. */
  predicate IsSurfaceParticle(pi: Particle, threshold: real) {
    pi.n.LengthSquared() > threshold
  }

  /** A seed of `computeSurfaceParticle`: a normal longer than the 0.2 threshold, or fewer
      fluid neighbours than half the expected particles per cell. */
  predicate IsSeed(pi: Particle, particlePerCell: real) {
    IsSurfaceParticle(pi, 0.2) || (|pi.fluidNeighbor| as real) < 0.5 * particlePerCell
  }

  /** k is marked as surface: it is a seed, or some seed lists it as a fluid neighbour. */
  ghost predicate OnSurface(ps: seq<Particle>, particlePerCell: real, k: int) {
    || (0 <= k < |ps| && IsSeed(ps[k], particlePerCell))
    || exists s :: 0 <= s < |ps| && IsSeed(ps[s], particlePerCell) && k in ps[s].fluidNeighbor
  }

  /** The seed stack and the set built from it in `computeSurfaceParticle`: first the seeds
      in index order, then each seed together with all of its fluid neighbours. */
  method CollectSurface(ps: seq<Particle>, particlePerCell: real) returns (surface: set<int>)
    ensures forall k :: k in surface <==> OnSurface(ps, particlePerCell, k)
  {
    var stack: seq<int> := [];
    for i := 0 to |ps|
      invariant forall t :: 0 <= t < |stack| ==> 0 <= stack[t] < i
      invariant forall k :: 0 <= k < i ==> (k in stack <==> IsSeed(ps[k], particlePerCell))
    {
      if IsSeed(ps[i], particlePerCell) {
        stack := stack + [i];
      }
    }
    surface := {};
    for i := 0 to |stack|
      invariant forall k :: k in surface <==>
        exists t :: 0 <= t < i && (k == stack[t] || k in ps[stack[t]].fluidNeighbor)
    {
      var seed := stack[i];
      surface := surface + {seed};
      var neighbors := ps[seed].fluidNeighbor;
      for j := 0 to |neighbors|
        invariant forall k :: k in surface <==>
          (exists t :: 0 <= t < i && (k == stack[t] || k in ps[stack[t]].fluidNeighbor))
          || k == seed || k in neighbors[..j]
      {
        surface := surface + {neighbors[j]};
      }
      assert neighbors[..|neighbors|] == neighbors;
    }
    forall k ensures k in surface <==> OnSurface(ps, particlePerCell, k) {
      if k in surface {
        var t :| 0 <= t < |stack| && (k == stack[t] || k in ps[stack[t]].fluidNeighbor);
        assert stack[t] in stack;
      }
      if OnSurface(ps, particlePerCell, k) {
        if 0 <= k < |ps| && IsSeed(ps[k], particlePerCell) {
          var t :| 0 <= t < |stack| && stack[t] == k;
        } else {
          var s :| 0 <= s < |ps| && IsSeed(ps[s], particlePerCell) && k in ps[s].fluidNeighbor;
          var t :| 0 <= t < |stack| && stack[t] == s;
        }
      }
    }
  }

  /** The classification reads normals and neighbour lists only: two arrays that differ in
      nothing but the flags classify alike. */
  lemma OnSurfaceIgnoresFlags(ps: seq<Particle>, qs: seq<Particle>, particlePerCell: real, k: int)
    requires |qs| == |ps| && forall j :: 0 <= j < |ps| ==> qs[j] == ps[j].(isSurface := qs[j].isSurface)
    ensures OnSurface(qs, particlePerCell, k) <==> OnSurface(ps, particlePerCell, k)
  {
    if OnSurface(ps, particlePerCell, k) && !(0 <= k < |ps| && IsSeed(ps[k], particlePerCell)) {
      var s :| 0 <= s < |ps| && IsSeed(ps[s], particlePerCell) && k in ps[s].fluidNeighbor;
      assert IsSeed(qs[s], particlePerCell) && k in qs[s].fluidNeighbor;
    }
    if OnSurface(qs, particlePerCell, k) && !(0 <= k < |qs| && IsSeed(qs[k], particlePerCell)) {
      var s :| 0 <= s < |qs| && IsSeed(qs[s], particlePerCell) && k in qs[s].fluidNeighbor;
      assert IsSeed(ps[s], particlePerCell) && k in ps[s].fluidNeighbor;
    }
  }

  /** With every neighbour index in range, only particles of the array are classified as on
      the surface, so the marking loop of `computeSurfaceParticle` stays inside the array. */
  lemma SurfaceIndicesInRange(ps: seq<Particle>, boundaryCount: int, particlePerCell: real, k: int)
    requires NeighborsInRange(ps, boundaryCount) && OnSurface(ps, particlePerCell, k)
    ensures 0 <= k < |ps|
  {
    if !(0 <= k < |ps| && IsSeed(ps[k], particlePerCell)) {
      var s :| 0 <= s < |ps| && IsSeed(ps[s], particlePerCell) && k in ps[s].fluidNeighbor;
      var t :| 0 <= t < |ps[s].fluidNeighbor| && ps[s].fluidNeighbor[t] == k;
    }
  }

  /** The particles `getSurfaceParticle` returns: those whose normal exceeds the threshold, in
      array order. */
  function SurfaceParticles(ps: seq<Particle>, threshold: real): (r: seq<Particle>)
    ensures |r| <= |ps|
    ensures forall q :: q in r <==> q in ps && IsSurfaceParticle(q, threshold)
    ensures forall q :: multiset(r)[q] == if IsSurfaceParticle(q, threshold) then multiset(ps)[q] else 0
  {
    if |ps| == 0 then []
    else
      var rest := SurfaceParticles(ps[..|ps| - 1], threshold);
      assert ps == ps[..|ps| - 1] + [ps[|ps| - 1]];
      assert forall q :: q in ps <==> q in ps[..|ps| - 1] || q == ps[|ps| - 1];
      if IsSurfaceParticle(ps[|ps| - 1], threshold) then rest + [ps[|ps| - 1]] else rest
  }
}
