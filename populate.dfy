/** The regular samplings that populate a scene: particle boxes, the six faces of a boundary
    box and the layered particle volume.

    Each is a nest of counted loops over integer counters; the positions it produces, in loop
    order, are `Blocks`, `Rows` and `Cells` of a `Lattice`, which maps the counters to a world
    position. A count that is negative produces nothing, as a C++ `for` loop whose bound is
    below its start does. */
module Populate {
  import opened Geometry
  import opened Particles

  function Max0(n: int): (r: nat)
    ensures n >= 0 ==> r == n
    ensures n < 0 ==> r == 0
  {
    if n < 0 then 0 else n
  }

  datatype Face = Bottom | Top | Back | Front | Left | Right

  /** How a sampling loop turns its counters (a, b, c) into a position. */
  datatype Lattice =
    | BoxLattice(offset: Vec3, h: real)      // addParticleBox: offset + (a h, b h, c h)
    | VolumeLattice(pos: Vec3, s: real)      // createParticleVolume: a layer, b row, c cell
    | FaceLattice(face: Face, origin: Vec3, offset: Vec3, scale: Vec3, h: real)
                                             // addBoundaryBox: counters b, c span the face

  function Point(l: Lattice, a: int, b: int, c: int): Vec3 {
    match l
    case BoxLattice(offset, h) => offset.Plus(Vec3(a as real * h, b as real * h, c as real * h))
    case VolumeLattice(pos, s) => Vec3(pos.x + b as real * s, pos.y + a as real * s, pos.z + c as real * s)
    case FaceLattice(face, origin, offset, scale, h) =>
      var u, v := b as real * h, c as real * h;
      match face
      case Bottom => Vec3(origin.x + u, offset.y, origin.z + v)
      case Top => Vec3(origin.x + u, offset.y + scale.y, origin.z + v)
      case Back => Vec3(origin.x + u, origin.y + v, offset.z)
      case Front => Vec3(origin.x + u, origin.y + v, offset.z + scale.z)
      case Left => Vec3(offset.x, origin.y + u, origin.z + v)
      case Right => Vec3(offset.x + scale.x, origin.y + u, origin.z + v)
  }

  /** The points (a, b, 0) .. (a, b, k-1). */
  function Cells(l: Lattice, a: int, b: int, k: nat): (r: seq<Vec3>)
    ensures |r| == k
    ensures forall c :: 0 <= c < k ==> r[c] == Point(l, a, b, c)
  {
    if k == 0 then [] else Cells(l, a, b, k - 1) + [Point(l, a, b, k - 1)]
  }

  /** The rows b = 0 .. j-1 of n3 cells each, in row order. */
  function Rows(l: Lattice, a: int, j: nat, n3: nat): seq<Vec3> {
    if j == 0 then [] else Rows(l, a, j - 1, n3) + Cells(l, a, j - 1, n3)
  }

  /** The blocks a = 0 .. i-1 of n2 rows of n3 cells each, in block order. */
  function Blocks(l: Lattice, i: nat, n2: nat, n3: nat): seq<Vec3> {
    if i == 0 then [] else Blocks(l, i - 1, n2, n3) + Rows(l, i - 1, n2, n3)
  }

  /** Positions already visited followed by one more row are the visited ones followed by one
      more row of the lattice. */
  lemma AppendRow(visited: seq<Vec3>, l: Lattice, a: int, j: nat, n3: nat)
    ensures (visited + Rows(l, a, j, n3)) + Cells(l, a, j, n3) == visited + Rows(l, a, j + 1, n3)
  {
    assert Rows(l, a, j + 1, n3) == Rows(l, a, j, n3) + Cells(l, a, j, n3);
  }

  /** The same for one more cell of a row. */
  lemma AppendCell(visited: seq<Vec3>, l: Lattice, a: int, b: int, k: nat)
    ensures (visited + Cells(l, a, b, k)) + [Point(l, a, b, k)] == visited + Cells(l, a, b, k + 1)
  {
    assert Cells(l, a, b, k + 1) == Cells(l, a, b, k) + [Point(l, a, b, k)];
  }

  lemma MulSucc(a: int, m: int)
    ensures (a + 1) * m == a * m + m
  {
  }

  /** j rows of n3 cells hold j * n3 positions. */
  lemma {:induction false} RowsLength(l: Lattice, a: int, j: nat, n3: nat)
    ensures |Rows(l, a, j, n3)| == j * n3
  {
    if j > 0 {
      RowsLength(l, a, j - 1, n3);
      MulSucc(j - 1, n3);
    }
  }

  /** i blocks of n2 rows of n3 cells hold i * n2 * n3 positions. */
  lemma {:induction false} BlocksLength(l: Lattice, i: nat, n2: nat, n3: nat)
    ensures |Blocks(l, i, n2, n3)| == i * (n2 * n3)
  {
    if i > 0 {
      BlocksLength(l, i - 1, n2, n3);
      RowsLength(l, i - 1, n2, n3);
      MulSucc(i - 1, n2 * n3);
    }
  }

  ghost predicate InOpenExtent(p: Vec3, lo: Vec3, size: Vec3) {
    && lo.x <= p.x < lo.x + size.x
    && lo.y <= p.y < lo.y + size.y
    && lo.z <= p.z < lo.z + size.z
  }

  ghost predicate InClosedExtent(p: Vec3, lo: Vec3, size: Vec3) {
    && lo.x <= p.x <= lo.x + size.x
    && lo.y <= p.y <= lo.y + size.y
    && lo.z <= p.z <= lo.z + size.z
  }

  /** The box [lo, lo + size), or its closure. */
  ghost predicate InExtent(p: Vec3, lo: Vec3, size: Vec3, closed: bool) {
    if closed then InClosedExtent(p, lo, size) else InOpenExtent(p, lo, size)
  }

  /** Every position of the rows is one of their points: when all the points lie in a box,
      so do all the positions. */
  lemma {:induction false} RowsWithin(l: Lattice, a: int, j: nat, n3: nat, lo: Vec3, size: Vec3, closed: bool)
    requires forall b, c :: 0 <= b < j && 0 <= c < n3 ==> InExtent(Point(l, a, b, c), lo, size, closed)
    ensures forall t :: 0 <= t < |Rows(l, a, j, n3)| ==> InExtent(Rows(l, a, j, n3)[t], lo, size, closed)
  {
    if j > 0 {
      RowsWithin(l, a, j - 1, n3, lo, size, closed);
      var prefix := Rows(l, a, j - 1, n3);
      var row := Cells(l, a, j - 1, n3);
      assert Rows(l, a, j, n3) == prefix + row;
      forall t | 0 <= t < |prefix + row| ensures InExtent((prefix + row)[t], lo, size, closed) {
        if t >= |prefix| {
          assert (prefix + row)[t] == Point(l, a, j - 1, t - |prefix|);
        }
      }
    }
  }

  /** Every position of the blocks is one of their points: when all the points lie in a box,
      so do all the positions. */
  lemma {:induction false} BlocksWithin(l: Lattice, i: nat, n2: nat, n3: nat, lo: Vec3, size: Vec3, closed: bool)
    requires forall a, b, c :: 0 <= a < i && 0 <= b < n2 && 0 <= c < n3 ==> InExtent(Point(l, a, b, c), lo, size, closed)
    ensures forall t :: 0 <= t < |Blocks(l, i, n2, n3)| ==> InExtent(Blocks(l, i, n2, n3)[t], lo, size, closed)
  {
    if i > 0 {
      BlocksWithin(l, i - 1, n2, n3, lo, size, closed);
      RowsWithin(l, i - 1, n2, n3, lo, size, closed);
      var prefix := Blocks(l, i - 1, n2, n3);
      var slab := Rows(l, i - 1, n2, n3);
      assert Blocks(l, i, n2, n3) == prefix + slab;
      forall t | 0 <= t < |prefix + slab| ensures InExtent((prefix + slab)[t], lo, size, closed) {
        if t >= |prefix| {
          assert (prefix + slab)[t] == slab[t - |prefix|];
        }
      }
    }
  }

  /** `floor(len / h)` converted to int: the number of whole spacings in a length. */
  function Span(len: real, h: real): int
    requires h != 0.0
  {
    (len / h).Floor
  }

  /** Fewer than floor(len / h) whole spacings fit strictly inside len. */
  lemma SpacingInside(a: int, len: real, h: real)
    requires h > 0.0 && 0 <= a < Span(len, h)
    ensures 0.0 <= a as real * h < len
  {
    assert (a + 1) as real <= len / h;
    assert (a + 1) as real * h <= (len / h) * h;
  }

  /** Up to floor(len / h) whole spacings fit inside len. */
  lemma SpacingWithin(a: int, len: real, h: real)
    requires h > 0.0 && 0 <= a <= Span(len, h)
    ensures 0.0 <= a as real * h <= len
  {
    assert a as real <= len / h;
    assert a as real * h <= (len / h) * h;
  }

  /** The particle positions of `addParticleBox(offset, scale)`. */
  function ParticleBox(offset: Vec3, scale: Vec3, h: real): seq<Vec3>
    requires h != 0.0
  {
    Blocks(BoxLattice(offset, h), Max0(Span(scale.x, h)), Max0(Span(scale.y, h)), Max0(Span(scale.z, h)))
  }

  /** Every particle of `addParticleBox(offset, scale)` lies inside the box: at least offset
      and strictly below offset + scale on each axis. */
  lemma ParticleBoxInsideExtent(offset: Vec3, scale: Vec3, h: real)
    requires h > 0.0
    ensures forall t :: 0 <= t < |ParticleBox(offset, scale, h)| ==> InOpenExtent(ParticleBox(offset, scale, h)[t], offset, scale)
  {
    var l := BoxLattice(offset, h);
    var w, hh, d := Max0(Span(scale.x, h)), Max0(Span(scale.y, h)), Max0(Span(scale.z, h));
    forall a, b, c | 0 <= a < w && 0 <= b < hh && 0 <= c < d ensures InExtent(Point(l, a, b, c), offset, scale, false) {
      SpacingInside(a, scale.x, h);
      SpacingInside(b, scale.y, h);
      SpacingInside(c, scale.z, h);
    }
    BlocksWithin(l, w, hh, d, offset, scale, false);
  }

  /** The samples of a face whose counters run from 0 to n1 and from 0 to n2 inclusive. */
  function FaceSamples(l: Lattice, n1: int, n2: int): seq<Vec3> {
    Rows(l, 0, Max0(n1 + 1), Max0(n2 + 1))
  }

  /** The number of steps (beyond the first sample) along each of a face's two directions:
      the box's width and depth for the horizontal faces, width and height for the faces
      across z, height and depth for the faces across x. */
  function FaceSteps(face: Face, scale: Vec3, h: real): (int, int)
    requires h != 0.0
  {
    (Span(FaceLengths(face, scale).0, h), Span(FaceLengths(face, scale).1, h))
  }

  /** The box's extents along a face's two directions. */
  function FaceLengths(face: Face, scale: Vec3): (real, real) {
    match face
    case Bottom => (scale.x, scale.z)
    case Top => (scale.x, scale.z)
    case Back => (scale.x, scale.y)
    case Front => (scale.x, scale.y)
    case Left => (scale.y, scale.z)
    case Right => (scale.y, scale.z)
  }

  /** The samples of one face, with the in-plane coordinates measured from origin. */
  function FaceOfBox(face: Face, origin: Vec3, offset: Vec3, scale: Vec3, h: real): seq<Vec3>
    requires h > 0.0
  {
    var (n1, n2) := FaceSteps(face, scale, h);
    FaceSamples(FaceLattice(face, origin, offset, scale, h), n1, n2)
  }

  /** The faces in the order `addBoundaryBox` appends them. */
  function FaceOrder(f: int): Face {
    if f == 0 then Bottom else if f == 1 then Top else if f == 2 then Back
    else if f == 3 then Front else if f == 4 then Left else Right
  }

  /** The first f faces, in append order. */
  function FacesUpTo(origin: Vec3, offset: Vec3, scale: Vec3, h: real, f: nat): seq<Vec3>
    requires h > 0.0
  {
    if f == 0 then []
    else FacesUpTo(origin, offset, scale, h, f - 1) + FaceOfBox(FaceOrder(f - 1), origin, offset, scale, h)
  }

  lemma {:induction false} FacesUpToGrows(origin: Vec3, offset: Vec3, scale: Vec3, h: real, f: nat, g: nat, p: Vec3)
    requires h > 0.0 && f <= g && p in FacesUpTo(origin, offset, scale, h, f)
    ensures p in FacesUpTo(origin, offset, scale, h, g)
    decreases g
  {
    if f < g {
      FacesUpToGrows(origin, offset, scale, h, f, g - 1, p);
    }
  }

  /** The six faces of `addBoundaryBox`. */
  function Faces(origin: Vec3, offset: Vec3, scale: Vec3, h: real): seq<Vec3>
    requires h > 0.0
  {
    FacesUpTo(origin, offset, scale, h, 6)
  }

  /** The boundary samples `addBoundaryBox` produces as written: the in-plane coordinates are
      i h and j h from the world origin, whatever the box's offset. */
  function BoundaryBoxAsWritten(offset: Vec3, scale: Vec3, h: real): seq<Vec3>
    requires h > 0.0
  {
    Faces(Zero, offset, scale, h)
  }

  /** The boundary samples of the box [offset, offset + scale]: the same six faces with the
      in-plane coordinates measured from the offset. */
  function BoundaryBox(offset: Vec3, scale: Vec3, h: real): seq<Vec3>
    requires h > 0.0
  {
    Faces(offset, offset, scale, h)
  }

  /** As written, a box away from the world origin is not enclosed by its own faces: with
      offset (-4, -4, -4), size 8 and spacing 1, the bottom face has a sample at (8, -4, 0),
      outside the box [-4, 4]^3. */
  lemma AsWrittenBoxLeavesItsExtent()
    ensures var offset, scale := Vec3(-4.0, -4.0, -4.0), Vec3(8.0, 8.0, 8.0);
      exists p :: p in BoundaryBoxAsWritten(offset, scale, 1.0) && !InClosedExtent(p, offset, scale)
  {
    var offset, scale := Vec3(-4.0, -4.0, -4.0), Vec3(8.0, 8.0, 8.0);
    assert Span(8.0, 1.0) == 8;
    var bottom := FaceLattice(Bottom, Zero, offset, scale, 1.0);
    var p := Point(bottom, 0, 8, 0);
    assert p == Vec3(8.0, -4.0, 0.0);
    var lastRow := Cells(bottom, 0, 8, 9);
    RowsLength(bottom, 0, 8, 9);
    assert FaceSamples(bottom, 8, 8) == Rows(bottom, 0, 8, 9) + lastRow;
    assert lastRow[0] == p;
    assert p in FaceSamples(bottom, 8, 8);
    assert p in FacesUpTo(Zero, offset, scale, 1.0, 1);
    FacesUpToGrows(Zero, offset, scale, 1.0, 1, 6, p);
    assert !InClosedExtent(p, offset, scale);
  }

  /** A corrected face sample whose counters stay within the face's steps lies in the closed
      box [offset, offset + scale]. */
  lemma FacePointWithinExtent(face: Face, offset: Vec3, scale: Vec3, h: real, b: int, c: int)
    requires h > 0.0 && scale.x >= 0.0 && scale.y >= 0.0 && scale.z >= 0.0
    requires 0 <= b <= FaceSteps(face, scale, h).0 && 0 <= c <= FaceSteps(face, scale, h).1
    ensures InClosedExtent(Point(FaceLattice(face, offset, offset, scale, h), 0, b, c), offset, scale)
  {
    SpacingWithin(b, FaceLengths(face, scale).0, h);
    SpacingWithin(c, FaceLengths(face, scale).1, h);
    InPlaneWithinExtent(face, offset, scale, b as real * h, c as real * h);
  }

  /** A face point whose in-plane coordinates lie within the face's extents is in the box. */
  lemma InPlaneWithinExtent(face: Face, offset: Vec3, scale: Vec3, u: real, v: real)
    requires scale.x >= 0.0 && scale.y >= 0.0 && scale.z >= 0.0
    requires 0.0 <= u <= FaceLengths(face, scale).0 && 0.0 <= v <= FaceLengths(face, scale).1
    ensures match face
      case Bottom => InClosedExtent(Vec3(offset.x + u, offset.y, offset.z + v), offset, scale)
      case Top => InClosedExtent(Vec3(offset.x + u, offset.y + scale.y, offset.z + v), offset, scale)
      case Back => InClosedExtent(Vec3(offset.x + u, offset.y + v, offset.z), offset, scale)
      case Front => InClosedExtent(Vec3(offset.x + u, offset.y + v, offset.z + scale.z), offset, scale)
      case Left => InClosedExtent(Vec3(offset.x, offset.y + u, offset.z + v), offset, scale)
      case Right => InClosedExtent(Vec3(offset.x + scale.x, offset.y + u, offset.z + v), offset, scale)
  {
  }

  /** Each corrected face lies in the closed box [offset, offset + scale]. */
  lemma FaceWithinExtent(face: Face, offset: Vec3, scale: Vec3, h: real)
    requires h > 0.0 && scale.x >= 0.0 && scale.y >= 0.0 && scale.z >= 0.0
    ensures forall t :: 0 <= t < |FaceOfBox(face, offset, offset, scale, h)| ==>
      InClosedExtent(FaceOfBox(face, offset, offset, scale, h)[t], offset, scale)
  {
    var l := FaceLattice(face, offset, offset, scale, h);
    var (n1, n2) := FaceSteps(face, scale, h);
    forall b, c | 0 <= b < Max0(n1 + 1) && 0 <= c < Max0(n2 + 1)
      ensures InExtent(Point(l, 0, b, c), offset, scale, true)
    {
      FacePointWithinExtent(face, offset, scale, h, b, c);
    }
    RowsWithin(l, 0, Max0(n1 + 1), Max0(n2 + 1), offset, scale, true);
  }

  /** With the offset applied, every sample lies in the closed box [offset, offset + scale]. */
  lemma {:induction false} FacesUpToWithinExtent(offset: Vec3, scale: Vec3, h: real, f: nat)
    requires h > 0.0 && scale.x >= 0.0 && scale.y >= 0.0 && scale.z >= 0.0
    ensures forall t :: 0 <= t < |FacesUpTo(offset, offset, scale, h, f)| ==>
      InClosedExtent(FacesUpTo(offset, offset, scale, h, f)[t], offset, scale)
  {
    if f > 0 {
      FacesUpToWithinExtent(offset, scale, h, f - 1);
      FaceWithinExtent(FaceOrder(f - 1), offset, scale, h);
      var prefix := FacesUpTo(offset, offset, scale, h, f - 1);
      var face := FaceOfBox(FaceOrder(f - 1), offset, offset, scale, h);
      forall t | 0 <= t < |prefix + face| ensures InClosedExtent((prefix + face)[t], offset, scale) {
        if t >= |prefix| {
          assert (prefix + face)[t] == face[t - |prefix|];
        }
      }
    }
  }

  lemma BoundaryBoxWithinExtent(offset: Vec3, scale: Vec3, h: real)
    requires h > 0.0 && scale.x >= 0.0 && scale.y >= 0.0 && scale.z >= 0.0
    ensures forall t :: 0 <= t < |BoundaryBox(offset, scale, h)| ==> InClosedExtent(BoundaryBox(offset, scale, h)[t], offset, scale)
  {
    FacesUpToWithinExtent(offset, scale, h, 6);
  }

  /** New fluid particles at rest at the given positions. */
  function AtRest(xs: seq<Vec3>): (r: seq<Particle>)
    ensures |r| == |xs| && forall t :: 0 <= t < |xs| ==> r[t] == NewParticle(xs[t], Zero)
  {
    seq(|xs|, t requires 0 <= t < |xs| => NewParticle(xs[t], Zero))
  }

  /** New boundary samples at the given positions, at rest and with zero volume weight. */
  function Walls(xs: seq<Vec3>): (r: seq<Boundary>)
    ensures |r| == |xs| && forall t :: 0 <= t < |xs| ==> r[t] == Boundary(xs[t], Zero, 0.0)
  {
    seq(|xs|, t requires 0 <= t < |xs| => Boundary(xs[t], Zero, 0.0))
  }

  /** The first m elements of xs, or all of them if there are fewer. */
  function Take<T>(xs: seq<T>, m: int): (r: seq<T>)
    ensures |r| == if |xs| < Max0(m) then |xs| else Max0(m)
    ensures forall t :: 0 <= t < |r| ==> r[t] == xs[t]
  {
    if |xs| < Max0(m) then xs else xs[..Max0(m)]
  }

  lemma TakeAppendOne<T>(xs: seq<T>, x: T, m: int)
    ensures |xs| < m ==> Take(xs + [x], m) == Take(xs, m) + [x]
    ensures |xs| >= m ==> Take(xs + [x], m) == Take(xs, m)
  {
    if |xs| >= m {
      assert Take(xs + [x], m) == (xs + [x])[..Max0(m)];
    }
  }

  /** The number of layers `createParticleVolume` fills before its count reaches m: the
      fewest whole layers of perLayer cells holding at least m cells. */
  function LayersFor(m: int, perLayer: int): (r: nat)
    requires perLayer >= 1
    ensures r * perLayer >= m
    ensures r > 0 ==> (r - 1) * perLayer < m
    decreases m
  {
    if m <= 0 then 0
    else
      var r := 1 + LayersFor(m - perLayer, perLayer);
      assert r * perLayer == (r - 1) * perLayer + perLayer;
      r
  }
  lemma AtRestAppend(a: seq<Vec3>, b: seq<Vec3>)
    ensures AtRest(a + b) == AtRest(a) + AtRest(b)
  {
  }

  lemma WallsAppend(a: seq<Vec3>, b: seq<Vec3>)
    ensures Walls(a + b) == Walls(a) + Walls(b)
  {
  }

  /** Multiplying by a positive spacing keeps the order of layer indices. */
  lemma ScaleMonotone(a: int, b: int, s: real)
    requires a <= b && s > 0.0
    ensures a as real * s <= b as real * s
  {
  }

  lemma {:induction false} LayersForIsUnique(m: int, perLayer: int, r: nat)
    requires perLayer >= 1
    requires r * perLayer >= m && (r > 0 ==> (r - 1) * perLayer < m)
    ensures r == LayersFor(m, perLayer)
  {
    var l := LayersFor(m, perLayer);
    if r > l {
      MulMonotone(l, r - 1, perLayer);
    }
  }

  lemma MulMonotone(a: int, b: int, c: int)
    requires a <= b && c >= 0
    ensures a * c <= b * c
  {
    assert b * c - a * c == (b - a) * c;
  }

  /** The number of cells in one layer of `createParticleVolume`. */
  function PerLayer(width: real, depth: real, s: real): (r: int)
    requires s != 0.0 && Span(width, s) >= 0 && Span(depth, s) >= 0
    ensures r >= 1
  {
    MulMonotone(1, Span(width, s) + 1, Span(depth, s) + 1);
    (Span(width, s) + 1) * (Span(depth, s) + 1)
  }

  /** The positions `createParticleVolume` fills: layer after layer (increasing y) of
      (widthSize + 1) x (depthSize + 1) cells, cut off after particleMax positions. With a
      non-positive particleMax nothing is filled. */
  function VolumeSamples(pos: Vec3, width: real, depth: real, s: real, particleMax: int): seq<Vec3>
    requires s != 0.0
    requires particleMax <= 0 || (Span(width, s) >= 0 && Span(depth, s) >= 0)
  {
    if particleMax <= 0 then []
    else
      var layers := LayersFor(particleMax, PerLayer(width, depth, s));
      Take(Blocks(VolumeLattice(pos, s), layers, Span(width, s) + 1, Span(depth, s) + 1), particleMax)
  }

  /** `createParticleVolume` adds exactly particleMax particles (none for a non-positive
      particleMax): the layers it fills hold at least that many cells. */
  lemma VolumeSamplesCount(pos: Vec3, width: real, depth: real, s: real, particleMax: int)
    requires s != 0.0
    requires particleMax <= 0 || (Span(width, s) >= 0 && Span(depth, s) >= 0)
    ensures |VolumeSamples(pos, width, depth, s, particleMax)| == Max0(particleMax)
  {
    if particleMax > 0 {
      var layers := LayersFor(particleMax, PerLayer(width, depth, s));
      BlocksLength(VolumeLattice(pos, s), layers, Span(width, s) + 1, Span(depth, s) + 1);
    }
  }

  /** With fewer than zero steps across the width or the depth, a layer of
      `createParticleVolume` holds no cell, so a layer visit leaves the count where it was:
      for a positive particleMax the code's `while (count < particleMax)` never ends. */
  lemma {:induction false} EmptyLayerWhenSpanNegative(pos: Vec3, width: real, depth: real, s: real, j: int)
    requires s != 0.0 && (Span(width, s) < 0 || Span(depth, s) < 0)
    ensures Rows(VolumeLattice(pos, s), j, Max0(Span(width, s) + 1), Max0(Span(depth, s) + 1)) == []
  {
    RowsLength(VolumeLattice(pos, s), j, Max0(Span(width, s) + 1), Max0(Span(depth, s) + 1));
  }

  lemma VolumePointWithin(pos: Vec3, width: real, depth: real, s: real, layers: nat, a: int, b: int, c: int)
    requires s > 0.0 && 0 <= a < layers && 0 <= b <= Span(width, s) && 0 <= c <= Span(depth, s)
    ensures InClosedExtent(Point(VolumeLattice(pos, s), a, b, c), pos, Vec3(width, layers as real * s, depth))
  {
    SpacingWithin(b, width, s);
    SpacingWithin(c, depth, s);
    ScaleMonotone(0, a, s);
    ScaleMonotone(a, layers, s);
  }

  /** The height of the filled layers, for a positive particleMax. */
  function VolumeHeight(width: real, depth: real, s: real, particleMax: int): real
    requires s != 0.0 && Span(width, s) >= 0 && Span(depth, s) >= 0
  {
    LayersFor(particleMax, PerLayer(width, depth, s)) as real * s
  }

  /** With a positive spacing, every filled position lies above pos, within the width and
      depth of the volume, and within the layers needed for particleMax cells. */
  lemma VolumeSamplesWithin(pos: Vec3, width: real, depth: real, s: real, particleMax: int)
    requires s > 0.0 && Span(width, s) >= 0 && Span(depth, s) >= 0
    ensures forall t :: 0 <= t < |VolumeSamples(pos, width, depth, s, particleMax)| ==>
      InClosedExtent(VolumeSamples(pos, width, depth, s, particleMax)[t], pos,
                     Vec3(width, VolumeHeight(width, depth, s, particleMax), depth))
  {
    if particleMax > 0 {
      var n2, n3 := Span(width, s) + 1, Span(depth, s) + 1;
      var layers := LayersFor(particleMax, PerLayer(width, depth, s));
      var size := Vec3(width, layers as real * s, depth);
      var l := VolumeLattice(pos, s);
      forall a, b, c | 0 <= a < layers && 0 <= b < n2 && 0 <= c < n3
        ensures InExtent(Point(l, a, b, c), pos, size, true)
      {
        VolumePointWithin(pos, width, depth, s, layers, a, b, c);
      }
      BlocksWithin(l, layers, n2, n3, pos, size, true);
      var blocks := Blocks(l, layers, n2, n3);
      var samples := VolumeSamples(pos, width, depth, s, particleMax);
      assert samples == Take(blocks, particleMax);
      forall t | 0 <= t < |samples| ensures InClosedExtent(samples[t], pos, size) {
        assert samples[t] == blocks[t];
        assert InExtent(blocks[t], pos, size, true);
      }
    }
  }
}
