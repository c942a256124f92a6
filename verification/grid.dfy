/**
 * The spatial grid (sim/grid.cpp): clamping a position into the box, the
 * block a particle falls in, the blocks adjacent to a block, and the block
 * map that loading a particle updates.
 *
 * The per-axis block counts (`number`) and block sizes (`size`) are given
 * reals. The source computes `number` as extent / smoothing length without
 * rounding, so it is in general not an integer; the model keeps it that way.
 */
module Grids {
  import opened Vectors
  import opened Constants
  import opened Particles
  import opened Blocks

  /** Block counts and block sizes per axis. */
  datatype Geometry = Geometry(number: Vec3, size: Vec3)

  /** Counts and sizes are positive, as they are for any positive
      particles-per-meter. */
  predicate ValidGeometry(g: Geometry)
  {
    && g.number[0] > 0.0 && g.number[1] > 0.0 && g.number[2] > 0.0
    && g.size[0] > 0.0 && g.size[1] > 0.0 && g.size[2] > 0.0
  }

  /** Along every axis, count times size covers the box exactly, which is
      how the grid derives size from count. */
  predicate CoversBox(g: Geometry)
  {
    forall i :: 0 <= i < 3 ==> g.size[i] * g.number[i] == Extent(i)
  }

  /** The geometry the grid derives from a smoothing length h: count is
      extent / h and size is extent / count, per axis. */
  function GeometryOf(h: real): (g: Geometry)
    requires h > 0.0
    ensures ValidGeometry(g) && CoversBox(g)
    ensures forall i :: 0 <= i < 3 ==> g.number[i] * h == Extent(i)
  {
    QuotientFacts(Extent(0), h);
    QuotientFacts(Extent(1), h);
    QuotientFacts(Extent(2), h);
    var n := [Extent(0) / h, Extent(1) / h, Extent(2) / h];
    Geometry(n, [Extent(0) / n[0], Extent(1) / n[1], Extent(2) / n[2]])
  }

  /** a / b is positive, scales back to a, and divides a into b. */
  lemma QuotientFacts(a: real, b: real)
    requires a > 0.0 && b > 0.0
    ensures a / b > 0.0 && a / b * b == a && a / (a / b) == b
  {
  }

  // ---------------------------------------------------------------------
  // moveParticleInBounds

  predicate InBox(position: Vec3)
  {
    forall i :: 0 <= i < 3 ==> BoxLowerBound[i] <= position[i] <= BoxUpperBound[i]
  }

  /** One coordinate: above the upper bound becomes the upper bound,
      otherwise below the lower bound becomes the lower bound. */
  function ClampCoordinate(x: real, lo: real, hi: real): real
  {
    if x > hi then hi else if x < lo then lo else x
  }

  function MoveParticleInBounds(position: Vec3): (r: Vec3)
    ensures InBox(r)
    ensures forall i :: 0 <= i < 3 && BoxLowerBound[i] <= position[i] <= BoxUpperBound[i] ==>
      r[i] == position[i]
    ensures forall i :: 0 <= i < 3 && position[i] > BoxUpperBound[i] ==> r[i] == BoxUpperBound[i]
    ensures forall i :: 0 <= i < 3 && position[i] < BoxLowerBound[i] ==> r[i] == BoxLowerBound[i]
  {
    [ ClampCoordinate(position[0], BoxLowerBound[0], BoxUpperBound[0]),
      ClampCoordinate(position[1], BoxLowerBound[1], BoxUpperBound[1]),
      ClampCoordinate(position[2], BoxLowerBound[2], BoxUpperBound[2]) ]
  }

  /** Clamping is the identity on the box, hence idempotent. */
  lemma MoveParticleInBoundsFixesBox(position: Vec3)
    ensures InBox(position) ==> MoveParticleInBounds(position) == position
    ensures MoveParticleInBounds(MoveParticleInBounds(position)) == MoveParticleInBounds(position)
  {
  }

  // ---------------------------------------------------------------------
  // findBlock

  /** static_cast<int> of a real: truncation toward zero. */
  function Trunc(x: real): (r: int)
    ensures x >= 0.0 ==> 0 <= r && r as real <= x < r as real + 1.0
    ensures x < 0.0 ==> r <= 0 && r as real - 1.0 < x <= r as real
  {
    if x >= 0.0 then x.Floor else -((-x).Floor)
  }

  /** The bound check on one block coordinate: negative goes to 0, above
      count - 1 (compared as reals) goes to the truncation of count - 1. */
  function ClampIndex(idx: int, number: real): int
  {
    if idx < 0 then 0
    else if idx as real > number - 1.0 then Trunc(number - 1.0)
    else idx
  }

  /** The block coordinate of an in-box position along one axis. */
  function AxisIndex(g: Geometry, q: Vec3, i: nat): int
    requires ValidGeometry(g) && i < 3
  {
    ClampIndex(Trunc((q[i] - BoxLowerBound[i]) / g.size[i]), g.number[i])
  }

  /** The index of the block a position falls in, after pulling the
      position back into the box. */
  function IndexOfPosition(g: Geometry, position: Vec3): (r: Index3)
    requires ValidGeometry(g)
    ensures forall i :: 0 <= i < 3 ==> 0 <= r[i]
    ensures forall i :: 0 <= i < 3 ==> r[i] as real <= g.number[i] - 1.0 || (g.number[i] < 2.0 && r[i] == 0)
  {
    var q := MoveParticleInBounds(position);
    [AxisIndex(g, q, 0), AxisIndex(g, q, 1), AxisIndex(g, q, 2)]
  }

  function FindBlock(g: Geometry, part: Particle): (r: Index3)
    requires ValidGeometry(g)
    ensures forall i :: 0 <= i < 3 ==> 0 <= r[i]
    ensures forall i :: 0 <= i < 3 ==> r[i] as real <= g.number[i] - 1.0 || (g.number[i] < 2.0 && r[i] == 0)
  {
    IndexOfPosition(g, part.position)
  }

  /** A position outside the box lands in the same block as its clamped
      image on the box surface. */
  lemma FindBlockIgnoresOverflow(g: Geometry, position: Vec3)
    requires ValidGeometry(g)
    ensures IndexOfPosition(g, position) == IndexOfPosition(g, MoveParticleInBounds(position))
  {
    MoveParticleInBoundsFixesBox(position);
  }

  /** The last block coordinate along an axis with the given count. */
  function LastIndex(number: real): int
  {
    Trunc(number - 1.0)
  }

  /** A coordinate on or beyond the upper bound lands in the last block of
      that axis, which is count - 1 rounded down, or 0 for a count below 1. */
  lemma QuotientOfCover(x: real, s: real, n: real)
    requires s > 0.0 && s * n == x
    ensures x / s == n
  {
  }

  lemma {:induction false} UpperBoundMapsToLastBlock(g: Geometry, position: Vec3, i: nat)
    requires ValidGeometry(g) && CoversBox(g) && i < 3
    requires position[i] >= BoxUpperBound[i]
    ensures IndexOfPosition(g, position)[i] == LastIndex(g.number[i])
    ensures g.number[i] >= 1.0 ==> LastIndex(g.number[i]) as real <= g.number[i] - 1.0 < LastIndex(g.number[i]) as real + 1.0
    ensures g.number[i] < 1.0 ==> LastIndex(g.number[i]) == 0
  {
    var q := MoveParticleInBounds(position);
    assert q[i] == BoxUpperBound[i];
    var n := g.number[i];
    assert q[i] - BoxLowerBound[i] == Extent(i);
    QuotientOfCover(Extent(i), g.size[i], n);
    var idx := Trunc(Extent(i) / g.size[i]);
    assert idx == Trunc(n);
    assert idx as real > n - 1.0;
    assert IndexOfPosition(g, position)[i] == ClampIndex(idx, n);
  }

  /** Along an axis with fewer than two blocks the bound check sends every
      block coordinate to 0: a negative one directly, one above count - 1
      to the truncation of a number in (-1, 1), and any other one lies in
      [0, 1). */
  lemma ClampIndexOnThinAxis(idx: int, number: real)
    requires 0.0 < number < 2.0
    ensures ClampIndex(idx, number) == 0
  {
    if 0 <= idx && idx as real > number - 1.0 {
      assert -1.0 < number - 1.0 < 1.0;
    }
  }

  /** With fewer than two blocks along every axis (as for 10 particles per
      meter) every position lands in block (0, 0, 0). */
  lemma SmallGridHasOneBlock(g: Geometry, position: Vec3)
    requires ValidGeometry(g)
    requires g.number[0] < 2.0 && g.number[1] < 2.0 && g.number[2] < 2.0
    ensures IndexOfPosition(g, position) == [0, 0, 0]
  {
    var q := MoveParticleInBounds(position);
    ClampIndexOnThinAxis(Trunc((q[0] - BoxLowerBound[0]) / g.size[0]), g.number[0]);
    ClampIndexOnThinAxis(Trunc((q[1] - BoxLowerBound[1]) / g.size[1]), g.number[1]);
    ClampIndexOnThinAxis(Trunc((q[2] - BoxLowerBound[2]) / g.size[2]), g.number[2]);
  }

  /** Scaling both sides of an inequality by a positive factor. */
  lemma ScaleLe(a: real, b: real, s: real)
    requires s > 0.0 && a <= b
    ensures a * s <= b * s
  {
  }

  lemma ScaleLt(a: real, b: real, s: real)
    requires s > 0.0 && a < b
    ensures a * s < b * s
  {
    var e := b - a;
    assert e * s > 0.0;
    assert b * s == a * s + e * s;
  }

  /** Block r of width s starts at or below offset d. */
  predicate StartsBy(r: int, d: real, s: real)
  {
    r as real * s <= d
  }

  /** Offset d lies in block r of width s: [r * s, (r + 1) * s). */
  predicate InBlock(r: int, d: real, s: real)
  {
    r as real * s <= d < (r as real + 1.0) * s
  }

  /** Truncating d / s for d >= 0 yields the cell of width s that holds d. */
  lemma CellOfTrunc(d: real, s: real)
    requires s > 0.0 && d >= 0.0
    ensures Trunc(d / s) >= 0 && InBlock(Trunc(d / s), d, s)
  {
    var k := Trunc(d / s) as real;
    var q, k1 := d / s, k + 1.0;
    assert q * s == d;
    if q < 0.0 {
      ScaleLt(q, 0.0, s);
      assert false;
    }
    assert k <= q < k1;
    ScaleLe(k, q, s);
    ScaleLt(q, k1, s);
    assert q * s < k1 * s;
    assert d < k1 * s;
  }

  /** Conversely, a cell k that holds d is the one truncation finds. */
  lemma TruncFindsCell(d: real, s: real, k: int)
    requires s > 0.0 && 0 <= k
    requires InBlock(k, d, s)
    ensures Trunc(d / s) == k
  {
    var q, kr := d / s, k as real;
    assert q * s == d;
    if q < kr {
      ScaleLt(q, kr, s);
      assert false;
    }
    if q >= kr + 1.0 {
      ScaleLe(kr + 1.0, q, s);
      assert false;
    }
    assert kr <= q < kr + 1.0;
  }

  /** One axis of findBlock, for an offset d >= 0 from the lower bound: the
      chosen block starts at or below d, and either holds d or is the last
      block. */
  lemma AxisBlockHoldsOffset(d: real, s: real, n: real)
    requires s > 0.0 && d >= 0.0
    ensures StartsBy(ClampIndex(Trunc(d / s), n), d, s)
    ensures InBlock(ClampIndex(Trunc(d / s), n), d, s) || ClampIndex(Trunc(d / s), n) == LastIndex(n)
  {
    var idx := Trunc(d / s);
    CellOfTrunc(d, s);
    if idx as real > n - 1.0 {
      var r := LastIndex(n);
      assert r <= idx;
      ScaleLe(r as real, idx as real, s);
    }
  }

  /** The block coordinate along axis i is the per-axis computation on the
      clamped position. */
  lemma IndexOfPositionAxis(g: Geometry, position: Vec3, i: nat)
    requires ValidGeometry(g) && i < 3
    ensures IndexOfPosition(g, position)[i] == AxisIndex(g, MoveParticleInBounds(position), i)
    ensures MoveParticleInBounds(position)[i] - BoxLowerBound[i] >= 0.0
  {
  }

  /** Along every axis, the block findBlock returns starts at or below the
      clamped coordinate, and either holds it or is the last block, into
      which the bound check folds everything above it. */
  lemma FoundBlockHoldsPosition(g: Geometry, position: Vec3, i: nat)
    requires ValidGeometry(g) && i < 3
    ensures StartsBy(IndexOfPosition(g, position)[i], MoveParticleInBounds(position)[i] - BoxLowerBound[i], g.size[i])
    ensures InBlock(IndexOfPosition(g, position)[i], MoveParticleInBounds(position)[i] - BoxLowerBound[i], g.size[i])
            || IndexOfPosition(g, position)[i] == LastIndex(g.number[i])
  {
    IndexOfPositionAxis(g, position, i);
    AxisBlockHoldsOffset(MoveParticleInBounds(position)[i] - BoxLowerBound[i], g.size[i], g.number[i]);
  }

  /** Any block that holds the clamped coordinate and lies within count - 1
      is the block findBlock returns. */
  lemma CellIsFoundBlock(g: Geometry, position: Vec3, i: nat, k: int)
    requires ValidGeometry(g) && i < 3
    requires 0 <= k && k as real <= g.number[i] - 1.0
    requires InBlock(k, MoveParticleInBounds(position)[i] - BoxLowerBound[i], g.size[i])
    ensures IndexOfPosition(g, position)[i] == k
  {
    IndexOfPositionAxis(g, position, i);
    TruncFindsCell(MoveParticleInBounds(position)[i] - BoxLowerBound[i], g.size[i], k);
  }

  /** The grid built for 10 particles per meter puts (0.1, 0.2, 0.3) in
      block (0, 0, 0). */
  lemma TenParticlesPerMeterExample()
    ensures IndexOfPosition(GeometryOf(RadiusMultiplier / 10.0), [0.1, 0.2, 0.3]) == [0, 0, 0]
  {
    var h := RadiusMultiplier / 10.0;
    var g := GeometryOf(h);
    assert g.number[0] * h == Extent(0);
    assert g.number[1] * h == Extent(1);
    assert g.number[2] * h == Extent(2);
    SmallGridHasOneBlock(g, [0.1, 0.2, 0.3]);
  }

  // ---------------------------------------------------------------------
  // add_particle_to_block

  type BlockMap = map<Index3, Block>

  /** The source looks up the particle's block. When it exists, the
      particle is added to a local copy of the block and the map is left
      as it was; otherwise an empty block with that key is inserted. In
      neither branch does the map come to hold the particle. */
  function AddParticleToBlock(g: Geometry, blocks: BlockMap, part: Particle): (r: BlockMap)
    requires ValidGeometry(g)
    ensures r.Keys == blocks.Keys + {FindBlock(g, part)}
    ensures forall k :: k in blocks ==> r[k] == blocks[k]
    ensures FindBlock(g, part) !in blocks ==> r[FindBlock(g, part)] == NewBlock(FindBlock(g, part))
  {
    var key := FindBlock(g, part);
    if key in blocks then
      blocks
    else
      blocks[key := NewBlock(key)]
  }

  /** Loads particles in order, as the reading loop does. */
  function LoadParticles(g: Geometry, blocks: BlockMap, ps: seq<Particle>): BlockMap
    requires ValidGeometry(g)
    decreases |ps|
  {
    if ps == [] then blocks
    else LoadParticles(g, AddParticleToBlock(g, blocks, ps[0]), ps[1..])
  }

  /** The blocks of a list of particles. */
  function BlocksOf(g: Geometry, ps: seq<Particle>): set<Index3>
    requires ValidGeometry(g)
  {
    set p | p in ps :: FindBlock(g, p)
  }

  lemma BlocksOfCons(g: Geometry, ps: seq<Particle>)
    requires ValidGeometry(g) && ps != []
    ensures BlocksOf(g, ps) == {FindBlock(g, ps[0])} + BlocksOf(g, ps[1..])
  {
    forall k | k in BlocksOf(g, ps) ensures k in {FindBlock(g, ps[0])} + BlocksOf(g, ps[1..]) {
      var p :| p in ps && k == FindBlock(g, p);
      if p != ps[0] {
        assert p in ps[1..];
      }
    }
  }

  /** After loading, the keys are the old ones plus the block of every
      loaded particle. */
  lemma {:induction false} LoadParticlesKeys(g: Geometry, blocks: BlockMap, ps: seq<Particle>)
    requires ValidGeometry(g)
    ensures LoadParticles(g, blocks, ps).Keys == blocks.Keys + BlocksOf(g, ps)
    decreases |ps|
  {
    if ps != [] {
      var b1 := AddParticleToBlock(g, blocks, ps[0]);
      LoadParticlesKeys(g, b1, ps[1..]);
      BlocksOfCons(g, ps);
    }
  }

  /** Loading leaves the old blocks untouched, and every new block is
      empty: the loaded particles are not stored anywhere. */
  lemma {:induction false} LoadParticlesStoresNothing(g: Geometry, blocks: BlockMap, ps: seq<Particle>)
    requires ValidGeometry(g)
    ensures forall k :: k in blocks ==> k in LoadParticles(g, blocks, ps) && LoadParticles(g, blocks, ps)[k] == blocks[k]
    ensures forall k :: k in LoadParticles(g, blocks, ps) && k !in blocks ==>
      LoadParticles(g, blocks, ps)[k] == NewBlock(k)
    decreases |ps|
  {
    if ps != [] {
      var b1 := AddParticleToBlock(g, blocks, ps[0]);
      LoadParticlesStoresNothing(g, b1, ps[1..]);
    }
  }
}
