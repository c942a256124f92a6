/**
 * The driver logic of sim/parser.cpp around the simulation: the gate that
 * decides whether the time steps run (printParameters and its use in
 * parser), and the preparation of the output, which concatenates the
 * particles of every block in the map's iteration order and sorts them by
 * id with mergeSort over [0, size() - 1].
 */
module Parser {
  import opened Vectors
  import opened Particles
  import opened Blocks
  import opened Grids
  import opened MergeSort

  // ---------------------------------------------------------------------
  // The gate and the step loop

  /** printParameters: 1 when the number of particles read equals the
      header's np, 0 on a mismatch. The console output is not modelled. */
  function PrintParameters(count: int, np: int): (r: int)
    ensures r == 0 || r == 1
    ensures r == 1 <==> count == np
  {
    if count == np then 1 else 0
  }

  /** The loop `for (int i = 0; i < nts; i++) step(grid)`: nts applications
      of step, none when nts is 0 or negative. */
  function Iterate<S>(step: S -> S, grid: S, nts: int): S
    decreases nts
  {
    if nts <= 0 then grid else Iterate(step, step(grid), nts - 1)
  }

  lemma {:induction false} IterateAdd<S>(step: S -> S, grid: S, n: nat, m: nat)
    ensures Iterate(step, Iterate(step, grid, n), m) == Iterate(step, grid, n + m)
    decreases n
  {
    if n > 0 {
      IterateAdd(step, step(grid), n - 1, m);
    }
  }

  /** What parser does between reading and writing: the step loop runs
      only when printParameters returns 1. The step function stands for
      simulateOneStep, which is not part of this model. */
  function RunSimulation<S>(count: int, np: int, nts: int, step: S -> S, grid: S): (r: S)
    ensures count != np ==> r == grid
    ensures nts <= 0 ==> r == grid
  {
    if PrintParameters(count, np) == 1 then Iterate(step, grid, nts) else grid
  }

  /** With matching counts every one of the nts steps runs, in order: one
      more requested step is one more application of step to the result. */
  lemma GateOpenRunsEveryStep<S>(count: int, np: int, nts: nat, step: S -> S, grid: S)
    requires count == np
    ensures RunSimulation(count, np, nts + 1, step, grid) == step(RunSimulation(count, np, nts, step, grid))
  {
    IterateAdd(step, grid, nts, 1);
  }

  // ---------------------------------------------------------------------
  // Reading the particles

  /** One particle record of the input file: nine floats, as readParticle
      reads them. */
  datatype Record = Record(position: Vec3, hv: Vec3, velocity: Vec3)

  const Origin: Vec3 := [0.0, 0.0, 0.0]

  /** The loop of readInput. It asks for end-of-file before reading, so it
      runs once more after the last record: that read fails, every value
      keeps its zero initialisation, and a particle at the origin with id
      |records| goes to add_particle_to_block as well. The counter starts at
      -1 and so ends at the number of records. */
  method ReadInput(g: Geometry, records: seq<Record>) returns (blocks: BlockMap, count: int)
    requires ValidGeometry(g)
    ensures count == |records|
    ensures forall k :: k in blocks <==>
      k == IndexOfPosition(g, Origin) || exists n :: 0 <= n < |records| && IndexOfPosition(g, records[n].position) == k
    ensures forall k :: k in blocks ==> blocks[k] == NewBlock(k)
  {
    blocks := map[];
    count := -1;
    var read := 0;
    var eof := false;
    while !eof
      invariant 0 <= read <= |records|
      invariant eof ==> read == |records|
      invariant count == read - 1 + (if eof then 1 else 0)
      invariant forall k :: k in blocks <==>
        (eof && k == IndexOfPosition(g, Origin)) || exists n :: 0 <= n < read && IndexOfPosition(g, records[n].position) == k
      invariant forall k :: k in blocks ==> blocks[k] == NewBlock(k)
      decreases |records| - read, if eof then 0 else 1
    {
      count := count + 1;
      var part;
      if read < |records| {
        part := NewParticle(count, records[read].position, records[read].hv, records[read].velocity);
        read := read + 1;
      } else {
        part := NewParticle(count, Origin, Origin, Origin);
        eof := true;
      }
      blocks := AddParticleToBlock(g, blocks, part);
    }
  }

  // ---------------------------------------------------------------------
  // Collecting the particles of the block map

  /** `order` lists the keys of the map, each exactly once: the iteration
      order of the unordered_map, which the source does not fix. */
  predicate Enumerates(order: seq<Index3>, blocks: BlockMap)
  {
    multiset(order) == multiset(blocks.Keys)
  }

  lemma EnumerationKeysInMap(order: seq<Index3>, blocks: BlockMap)
    requires Enumerates(order, blocks)
    ensures forall k :: k in order <==> k in blocks
  {
    forall k
      ensures k in order <==> k in blocks
    {
      assert k in order <==> multiset(order)[k] > 0;
      assert k in blocks <==> multiset(blocks.Keys)[k] > 0;
    }
  }

  /** The particles of the blocks listed in `order`, block after block,
      each block's particles in their stored order. */
  function Flatten(blocks: BlockMap, order: seq<Index3>): seq<Particle>
    requires forall k :: k in order ==> k in blocks
    decreases |order|
  {
    if order == [] then [] else blocks[order[0]].particles + Flatten(blocks, order[1..])
  }

  lemma {:induction false} FlattenAppend(blocks: BlockMap, o1: seq<Index3>, o2: seq<Index3>)
    requires forall k :: k in o1 ==> k in blocks
    requires forall k :: k in o2 ==> k in blocks
    ensures Flatten(blocks, o1 + o2) == Flatten(blocks, o1) + Flatten(blocks, o2)
    decreases |o1|
  {
    if o1 == [] {
      assert o1 + o2 == o2;
    } else {
      assert (o1 + o2)[1..] == o1[1..] + o2;
      FlattenAppend(blocks, o1[1..], o2);
    }
  }

  /** A particle is collected exactly when some listed block holds it. */
  lemma {:induction false} FlattenMembers(blocks: BlockMap, order: seq<Index3>, p: Particle)
    requires forall k :: k in order ==> k in blocks
    ensures p in Flatten(blocks, order) <==> exists k :: k in order && p in blocks[k].particles
    decreases |order|
  {
    if order != [] {
      FlattenMembers(blocks, order[1..], p);
      if p in blocks[order[0]].particles {
        assert order[0] in order;
      }
      if exists k :: k in order && p in blocks[k].particles {
        var k :| k in order && p in blocks[k].particles;
        if k != order[0] {
          assert k in order[1..];
        }
      }
    }
  }

  /** Removing the element at position p removes one copy of it. */
  lemma MultisetRemoveAt<T>(s: seq<T>, p: nat)
    requires p < |s|
    ensures multiset(s[..p] + s[p + 1..]) == multiset(s) - multiset{s[p]}
  {
    assert s == s[..p] + [s[p]] + s[p + 1..];
  }

  /** The multiset step of a reordering: the middle part moves to the
      front. */
  lemma MoveToFront(x: seq<Particle>, a: seq<Particle>, b: seq<Particle>, c: seq<Particle>,
                    y: seq<Particle>, r: seq<Particle>)
    requires x == a + (b + c) && y == b + r
    requires multiset(r) == multiset(a) + multiset(c)
    ensures multiset(x) == multiset(y)
  {
  }

  /** The head of o1 sits somewhere in o2; taking it out of both leaves
      equal multisets. */
  lemma PickHead<T>(o1: seq<T>, o2: seq<T>) returns (p: nat)
    requires o1 != [] && multiset(o1) == multiset(o2)
    ensures p < |o2| && o2[p] == o1[0]
    ensures multiset(o1[1..]) == multiset(o2[..p] + o2[p + 1..])
  {
    p := PositionOf(o1[0], o2);
    MultisetRemoveAt(o1, 0);
    MultisetRemoveAt(o2, p);
    assert o1[..0] + o1[1..] == o1[1..];
  }

  lemma PositionOf<T>(x: T, s: seq<T>) returns (p: nat)
    requires x in multiset(s)
    ensures p < |s| && s[p] == x
  {
    p :| 0 <= p < |s| && s[p] == x;
  }

  /** Flattening around position p: the block at p sits between the
      blocks before and after it. */
  lemma FlattenAround(blocks: BlockMap, o: seq<Index3>, p: nat)
    requires forall k :: k in o ==> k in blocks
    requires p < |o|
    ensures Flatten(blocks, o) == Flatten(blocks, o[..p]) + (blocks[o[p]].particles + Flatten(blocks, o[p + 1..]))
    ensures Flatten(blocks, o[..p] + o[p + 1..]) == Flatten(blocks, o[..p]) + Flatten(blocks, o[p + 1..])
  {
    var before, after := o[..p], o[p + 1..];
    FlattenAppend(blocks, before, after);
    FlattenAppend(blocks, before, [o[p]] + after);
    assert ([o[p]] + after)[1..] == after;
    assert o == before + ([o[p]] + after);
  }

  /** Listing the same keys in another order collects the same particles,
      with the same multiplicities. */
  lemma {:induction false} FlattenReorder(blocks: BlockMap, o1: seq<Index3>, o2: seq<Index3>)
    requires forall k :: k in o1 ==> k in blocks
    requires forall k :: k in o2 ==> k in blocks
    requires multiset(o1) == multiset(o2)
    ensures multiset(Flatten(blocks, o1)) == multiset(Flatten(blocks, o2))
    decreases |o1|
  {
    SameLength(o1, o2);
    if o1 != [] {
      var p := PickHead(o1, o2);
      var rest := o2[..p] + o2[p + 1..];
      FlattenReorder(blocks, o1[1..], rest);
      FlattenAround(blocks, o2, p);
      MoveToFront(Flatten(blocks, o2), Flatten(blocks, o2[..p]), blocks[o1[0]].particles,
                  Flatten(blocks, o2[p + 1..]), Flatten(blocks, o1), Flatten(blocks, o1[1..]));
    }
  }

  /** Blocks holding no particles contribute nothing. */
  lemma {:induction false} FlattenOfEmptyBlocks(blocks: BlockMap, order: seq<Index3>)
    requires forall k :: k in order ==> k in blocks && blocks[k].particles == []
    ensures Flatten(blocks, order) == []
    decreases |order|
  {
    if order != [] {
      FlattenOfEmptyBlocks(blocks, order[1..]);
    }
  }

  // ---------------------------------------------------------------------
  // Sorting for output

  /** The conversion of an unsigned value to a 32-bit int: the low 32 bits
      read as two's complement. */
  function ToInt32(x: nat): (r: int)
    ensures -0x8000_0000 <= r < 0x8000_0000 && r <= x
    ensures x < 0x8000_0000 ==> r == x
    ensures 0x8000_0000 <= x < 0x1_0000_0000 ==> r == x - 0x1_0000_0000
    decreases x
  {
    if x < 0x8000_0000 then x
    else if x < 0x1_0000_0000 then x - 0x1_0000_0000
    else ToInt32(x - 0x1_0000_0000)
  }

  /** The conversion keeps x modulo 2^32: together with the range, the
      result is the unique value in [-2^31, 2^31) congruent to x. */
  lemma {:induction false} ToInt32Congruent(x: nat)
    ensures (x - ToInt32(x)) % 0x1_0000_0000 == 0
    decreases x
  {
    if x >= 0x1_0000_0000 {
      ToInt32Congruent(x - 0x1_0000_0000);
      var m := x - 0x1_0000_0000 - ToInt32(x - 0x1_0000_0000);
      assert x - ToInt32(x) == m + 0x1_0000_0000;
    }
  }

  /** Adding whole multiples of 2^32 does not change the conversion. */
  lemma {:induction false} ToInt32Periodic(x: nat, k: nat)
    ensures ToInt32(x + k * 0x1_0000_0000) == ToInt32(x)
    decreases k
  {
    if k > 0 {
      ToInt32Periodic(x, k - 1);
      assert x + k * 0x1_0000_0000 - 0x1_0000_0000 == x + (k - 1) * 0x1_0000_0000;
    }
  }

  /** `particles.size() - 1` passed as the int `right`: the subtraction is
      in 64-bit size_t arithmetic, so 0 - 1 wraps to 2^64 - 1 (any other
      size is at least 1 and does not wrap), and the conversion to int
      keeps the low 32 bits. */
  function LastIndexAsInt(n: nat): (r: int)
    ensures n == 0 ==> r == -1
    ensures 1 <= n <= 0x8000_0000 ==> r == n - 1
    ensures -0x8000_0000 <= r < 0x8000_0000 && r < n
  {
    ToInt32Periodic(0xFFFF_FFFF, 0xFFFF_FFFF);
    ToInt32(if n == 0 then 0xFFFF_FFFF_FFFF_FFFF else n - 1)
  }

  /** `mergeSort(particles, 0, particles.size() - 1)`. */
  function SortForOutput(ps: seq<Particle>): (r: seq<Particle>)
    ensures |r| == |ps|
  {
    MergeSort.MergeSort(ps, 0, LastIndexAsInt(|ps|))
  }

  /** Up to 2^31 particles the call covers the whole vector, which comes
      out as its sorted run. */
  lemma SortForOutputIsSortRun(ps: seq<Particle>)
    requires 1 <= |ps| <= 0x8000_0000
    ensures SortForOutput(ps) == SortRun(ps)
  {
    SortForOutputCoversAll(ps);
    MergeSortWhole(ps, |ps| - 1);
  }

  lemma SortForOutputCoversAll(ps: seq<Particle>)
    requires 1 <= |ps| <= 0x8000_0000
    ensures SortForOutput(ps) == MergeSort.MergeSort(ps, 0, |ps| - 1)
  {
  }

  /** The empty vector: right is -1 and the call does nothing. */
  lemma SortForOutputOfEmpty()
    ensures SortForOutput([]) == []
  {
    assert LastIndexAsInt(0) == -1;
  }

  /** From 2^31 + 1 to 2^32 particles, size() - 1 turns into a negative
      int and the vector is written unsorted, as read. */
  lemma SortForOutputSkipsHugeVectors(ps: seq<Particle>)
    requires 0x8000_0001 <= |ps| <= 0x1_0000_0000
    ensures SortForOutput(ps) == ps
  {
    assert LastIndexAsInt(|ps|) == |ps| - 1 - 0x1_0000_0000;
  }

  /** Past 2^32 particles size() - 1 wraps again: the last index passed
      is the int congruent to size() - 1 modulo 2^32, so the call sorts a
      prefix of the vector when that int is not negative. */
  lemma LastIndexAsIntWraps(n: nat)
    requires n >= 1
    ensures (n - 1 - LastIndexAsInt(n)) % 0x1_0000_0000 == 0
  {
    ToInt32Congruent(n - 1);
  }

  /** Up to 2^31 particles the whole vector is sorted by id, as a
      permutation of its input; the empty vector passes through. */
  lemma SortForOutputSorts(ps: seq<Particle>)
    requires |ps| <= 0x8000_0000
    ensures SortedById(SortForOutput(ps))
    ensures multiset(SortForOutput(ps)) == multiset(ps)
  {
    if ps == [] {
      SortForOutputOfEmpty();
    } else {
      SortForOutputIsSortRun(ps);
      SortRunSorted(ps);
      SortRunPermutes(ps);
    }
  }

  /** Particles with equal ids leave the sort in the order they were
      collected in. */
  lemma SortForOutputStable(ps: seq<Particle>, x: int)
    requires |ps| <= 0x8000_0000
    ensures WithId(SortForOutput(ps), x) == WithId(ps, x)
  {
    if ps == [] {
      SortForOutputOfEmpty();
    } else {
      SortForOutputIsSortRun(ps);
      SortRunStable(ps, x);
    }
  }

  /** No two different particles in m share an id. */
  predicate IdsIdentify(m: multiset<Particle>)
  {
    forall p, q :: p in m && q in m && p.id == q.id ==> p == q
  }

  lemma IdsIdentifySub(m: multiset<Particle>, n: multiset<Particle>)
    requires IdsIdentify(n) && m <= n
    ensures IdsIdentify(m)
  {
  }

  /** In an id-sorted sequence the head's id is the least id held. */
  lemma SortedHeadIsLeast(s: seq<Particle>, q: Particle)
    requires SortedById(s) && q in multiset(s)
    ensures s[0].id <= q.id
  {
    var i :| 0 <= i < |s| && s[i] == q;
  }

  /** Equal heads: each head is the least id of the other sequence, and
      an id names one particle. */
  lemma SortedHeadsAgree(s: seq<Particle>, t: seq<Particle>)
    requires SortedById(s) && SortedById(t) && s != [] && t != []
    requires multiset(s) == multiset(t)
    requires IdsIdentify(multiset(s))
    ensures s[0] == t[0]
  {
    SortedHeadIsLeast(s, t[0]);
    SortedHeadIsLeast(t, s[0]);
  }

  /** Equal heads leave equal tails, each within the whole. */
  lemma TailsAgree<T>(s: seq<T>, t: seq<T>)
    requires s != [] && t != [] && s[0] == t[0]
    requires multiset(s) == multiset(t)
    ensures multiset(s[1..]) == multiset(t[1..])
    ensures multiset(s[1..]) <= multiset(s)
  {
    assert s == [s[0]] + s[1..];
    assert t == [t[0]] + t[1..];
    assert multiset(s[1..]) == multiset(s) - multiset{s[0]};
    assert multiset(t[1..]) == multiset(t) - multiset{t[0]};
  }

  lemma SameLength<T>(s: seq<T>, t: seq<T>)
    requires multiset(s) == multiset(t)
    ensures |s| == |t|
  {
    assert |s| == |multiset(s)| && |t| == |multiset(t)|;
  }

  lemma SortedTail(s: seq<Particle>)
    requires SortedById(s) && s != []
    ensures SortedById(s[1..])
  {
  }

  lemma ConsEqual<T>(s: seq<T>, t: seq<T>)
    requires s != [] && t != [] && s[0] == t[0] && s[1..] == t[1..]
    ensures s == t
  {
    assert s == [s[0]] + s[1..];
    assert t == [t[0]] + t[1..];
  }

  /** Two id-sorted sequences holding the same particles are equal when an
      id identifies its particle. */
  lemma {:induction false} SortedPermutationsAgree(s: seq<Particle>, t: seq<Particle>)
    requires SortedById(s) && SortedById(t)
    requires multiset(s) == multiset(t)
    requires IdsIdentify(multiset(s))
    ensures s == t
    decreases |s|
  {
    SameLength(s, t);
    if s != [] {
      SortedHeadsAgree(s, t);
      TailsAgree(s, t);
      IdsIdentifySub(multiset(s[1..]), multiset(s));
      SortedTail(s);
      SortedTail(t);
      SortedPermutationsAgree(s[1..], t[1..]);
      ConsEqual(s, t);
    }
  }

  /** The output order does not depend on the map's iteration order, as
      long as no two different particles share an id. */
  lemma OutputIndependentOfMapOrder(blocks: BlockMap, o1: seq<Index3>, o2: seq<Index3>)
    requires Enumerates(o1, blocks) && Enumerates(o2, blocks)
    requires forall k :: k in o1 ==> k in blocks
    requires forall k :: k in o2 ==> k in blocks
    requires IdsIdentify(multiset(Flatten(blocks, o1)))
    requires |Flatten(blocks, o1)| <= 0x8000_0000
    ensures SortForOutput(Flatten(blocks, o1)) == SortForOutput(Flatten(blocks, o2))
  {
    var f1, f2 := Flatten(blocks, o1), Flatten(blocks, o2);
    FlattenReorder(blocks, o1, o2);
    assert |f2| == |multiset(f2)| == |multiset(f1)| == |f1|;
    SortForOutputSorts(f1);
    SortForOutputSorts(f2);
    SortedPermutationsAgree(SortForOutput(f1), SortForOutput(f2));
  }

  /** Reading the input only ever inserts empty blocks, so the vector
      writeOutput sorts and writes is empty whatever was read. */
  lemma LoadedGridWritesNoParticles(g: Geometry, ps: seq<Particle>, order: seq<Index3>)
    requires ValidGeometry(g)
    requires Enumerates(order, LoadParticles(g, map[], ps))
    ensures forall k :: k in order ==> k in LoadParticles(g, map[], ps)
    ensures SortForOutput(Flatten(LoadParticles(g, map[], ps), order)) == []
  {
    var blocks := LoadParticles(g, map[], ps);
    EnumerationKeysInMap(order, blocks);
    LoadParticlesStoresNothing(g, map[], ps);
    FlattenOfEmptyBlocks(blocks, order);
  }
}
