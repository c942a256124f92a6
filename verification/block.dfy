/**
 * The container part of a grid block (sim/block.cpp): its index, the
 * particles bucketed into it and its list of adjacent blocks, each kept in
 * insertion order. The pairwise physics of the class is not part of this
 * model.
 */
module Blocks {
  import opened Vectors
  import opened Particles

  datatype Block = Block(particles: seq<Particle>, adjBlocks: seq<Block>, index: Index3)

  /** The constructor: the given index, no particles, no neighbours. */
  function NewBlock(index: Index3): (b: Block)
    ensures b.index == index
    ensures |b.particles| == 0 && |b.adjBlocks| == 0
  {
    Block([], [], index)
  }

  function GetIndex(b: Block): Index3 { b.index }

  function GetParticles(b: Block): seq<Particle> { b.particles }

  /** Appends one particle after the ones already held. */
  function AddParticle(b: Block, p: Particle): (r: Block)
    ensures |r.particles| == |b.particles| + 1
    ensures r.particles[..|b.particles|] == b.particles
    ensures r.particles[|b.particles|] == p
    ensures r.index == b.index && r.adjBlocks == b.adjBlocks
  {
    b.(particles := b.particles + [p])
  }

  /** Appends one block to the adjacency list. */
  function AddAdjacentBlock(b: Block, adj: Block): (r: Block)
    ensures |r.adjBlocks| == |b.adjBlocks| + 1
    ensures r.adjBlocks[..|b.adjBlocks|] == b.adjBlocks
    ensures r.adjBlocks[|b.adjBlocks|] == adj
    ensures r.index == b.index && r.particles == b.particles
  {
    b.(adjBlocks := b.adjBlocks + [adj])
  }

  /** Adds the given particles one after the other. */
  function AddParticles(b: Block, ps: seq<Particle>): Block
    decreases |ps|
  {
    if ps == [] then b else AddParticles(AddParticle(b, ps[0]), ps[1..])
  }

  /** Successive additions keep every particle, in the order added, after
      the ones already held; index and neighbours stay as they were. */
  lemma {:induction false} AddParticlesAppendsInOrder(b: Block, ps: seq<Particle>)
    ensures GetParticles(AddParticles(b, ps)) == GetParticles(b) + ps
    ensures GetIndex(AddParticles(b, ps)) == GetIndex(b)
    ensures AddParticles(b, ps).adjBlocks == b.adjBlocks
    decreases |ps|
  {
    if ps != [] {
      var b' := AddParticle(b, ps[0]);
      AddParticlesAppendsInOrder(b', ps[1..]);
      assert b'.particles == b.particles + [ps[0]];
      assert [ps[0]] + ps[1..] == ps;
      assert b.particles + [ps[0]] + ps[1..] == b.particles + ps;
    }
  }

  /** A block built from an index reports that index and holds nothing. */
  lemma NewBlockObservations(index: Index3)
    ensures GetIndex(NewBlock(index)) == index
    ensures GetParticles(NewBlock(index)) == []
  {
  }
}
