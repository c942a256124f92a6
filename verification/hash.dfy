/**
 * The hash used to key the block map by a std::vector<int> (hashing::vHash
 * in sim/hash.cpp). The accumulator is a 64-bit size_t seeded with the
 * vector's length. Each element is added to the 32-bit golden-ratio
 * constant in unsigned 32-bit arithmetic, widened, and combined with the
 * accumulator shifted left by 6 and right by 2 in 64-bit arithmetic.
 */
module Hashing {

  /** A C++ int. */
  newtype int32 = x: int | -0x8000_0000 <= x < 0x8000_0000

  const GoldenRatioInitValue: bv32 := 0x9e3779b9

  /** The int-to-unsigned conversion: two's complement reinterpretation. */
  function ToUnsigned(e: int32): bv32
  {
    if e >= 0 then (e as int) as bv32 else (e as int + 0x1_0000_0000) as bv32
  }

  /** One step: hash ^= element + GoldenRatioInitValue + (hash << 6) + (hash >> 2). */
  function Mix(h: bv64, e: int32): bv64
  {
    h ^ (((ToUnsigned(e) + GoldenRatioInitValue) as bv64) + (h << 6) + (h >> 2))
  }

  /** Left-to-right fold of Mix over the elements, starting from h: the
      last element is mixed in last. */
  function Fold(h: bv64, v: seq<int32>): bv64
    decreases |v|
  {
    if v == [] then h else Mix(Fold(h, v[..|v| - 1]), v[|v| - 1])
  }

  function VHash(v: seq<int32>): bv64
    requires |v| < 0x1_0000_0000_0000_0000
  {
    Fold(|v| as bv64, v)
  }

  /** The loop of the operator: mixes the elements in from first to last,
      updating the accumulator in place. */
  method MixAll(seed: bv64, v: seq<int32>) returns (hash: bv64)
    ensures hash == Fold(seed, v)
  {
    hash := seed;
    var i := 0;
    while i < |v|
      invariant 0 <= i <= |v|
      invariant hash == Fold(seed, v[..i])
    {
      FoldStep(seed, v, i);
      hash := Mix(hash, v[i]);
      i := i + 1;
    }
    assert v[..i] == v;
  }

  /** The operator as written: the accumulator is seeded with the length
      and then the loop runs. */
  method HashLoop(v: seq<int32>) returns (hash: bv64)
    requires |v| < 0x1_0000_0000_0000_0000
    ensures hash == VHash(v)
  {
    hash := MixAll(|v| as bv64, v);
  }

  /** One more element of the prefix is one more Mix. */
  lemma FoldStep(h: bv64, v: seq<int32>, i: nat)
    requires i < |v|
    ensures Fold(h, v[..i + 1]) == Mix(Fold(h, v[..i]), v[i])
  {
    assert v[..i + 1][..i] == v[..i];
  }

  /** The empty vector hashes to its length, 0. */
  lemma EmptyVectorHashesToZero()
    ensures VHash([]) == 0
  {
  }

  /** The value for {1, 2, 3}: seed 3, then 1, 2 and 3 mixed in. */
  lemma HashOfAscending()
    ensures VHash([1, 2, 3]) == 0xa16_fb2b_5814
  {
    var u: seq<int32> := [1, 2, 3];
    assert u[..2] == [1, 2] && u[..2][..1] == [1] && u[..2][..1][..0] == [];
    assert ToUnsigned(1) == 1;
    assert Mix(3, 1) == 0x9e37_7a79;
    assert Fold(3, u[..1]) == 0x9e37_7a79;
    assert Fold(3, u[..2]) == 0x28_cd94_8ce0;
  }

  /** The value for {3, 2, 1}. */
  lemma HashOfDescending()
    ensures VHash([3, 2, 1]) == 0xa16_fb29_b1f6
  {
    var w: seq<int32> := [3, 2, 1];
    assert w[..2] == [3, 2] && w[..2][..1] == [3] && w[..2][..1][..0] == [];
    assert ToUnsigned(3) == 3;
    assert Mix(3, 3) == 0x9e37_7a7f;
    assert Fold(3, w[..1]) == 0x9e37_7a7f;
    assert Fold(3, w[..2]) == 0x28_cd94_8265;
  }

  /** Reversing the elements changes the hash: {1, 2, 3} and {3, 2, 1}
      hash differently. */
  lemma HashIsOrderSensitive()
    ensures VHash([1, 2, 3]) != VHash([3, 2, 1])
  {
    HashOfAscending();
    HashOfDescending();
  }
}
