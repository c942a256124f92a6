# SPH fluid simulator: discrete core in Dafny

This project models the discrete, sequential logic of a Smoothed Particle
Hydrodynamics fluid simulator written in C++, and proves properties of it.
The floating-point physics is not modelled. The parts that are:

- **Output ordering.** `merge` and `mergeSort` sort the particle vector by
  ascending id over an index range `[left, right]`. `writeOutput` first
  concatenates the particles of every block of the block map, in the map's
  iteration order, and then calls `mergeSort(particles, 0, size() - 1)`.
- **Run gate.** `printParameters` returns 1 when the number of particles
  read equals the header's `np`, and 0 otherwise. `parser` runs the time
  steps only when it returns 1.
- **Spatial grid.**
  - `moveParticleInBounds` clamps a position into the domain box.
  - `findBlock` truncates `(position - lower) / size` per axis and clamps
    the result against `number - 1`.
  - `findAdjBlocks` lists the in-range indices around a block.
  - `add_particle_to_block` updates the block map keyed by block index.
- **Block container.** The constructor, `get_index`, `getParticles`,
  `addParticle` and `addAdjacentBlock`.
- **Particle record.** The constructor, getters and setters, and the
  one-way `accelerated` flag.
- **Block-key hash** (`hashing::vHash`). A fold over a `std::vector<int>`,
  computed in 64-bit `size_t` arithmetic with a 32-bit unsigned addition
  of the golden-ratio constant.
- **Argument check** (`progargs`). It maps the argument count, the step
  count and the two file checks to a return code.

Modules follow the source files:

| module | file | models |
|---|---|---|
| `Vectors` | vectors.dfy | length-3 vectors for positions and block indices |
| `Constants` | constants.dfy | `sim/constants.hpp` |
| `Particles` | particle.dfy | `sim/particle.cpp` |
| `Blocks` | block.dfy | `sim/block.cpp`, container part |
| `Grids` | grid.dfy | `sim/grid.cpp`: bounds, `findBlock`, block map |
| `Adjacency` | adjacency.dfy | `sim/grid.cpp`: `findAdjBlocks` |
| `Hashing` | hash.dfy | `sim/hash.cpp` |
| `MergeSort` | mergesort.dfy | `sim/parser.cpp`: `merge`, `mergeSort` |
| `Parser` | parser.dfy | `sim/parser.cpp`: gate, collecting and sorting the output |
| `ProgArgs` | progargs.dfy | `sim/progargs.cpp` |

How the model represents the source:

- `float` and `double` are `real`. `std::vector` of size 3 is a length-3
  `seq`. A class instance is an immutable datatype, and each mutator
  returns an updated copy.
- The block map is a `map<Index3, Block>`. Where the output depends on the
  `unordered_map`'s iteration order, that order is a parameter: a sequence
  listing every key exactly once.
- `merge` is modelled twice:
  - as a pure function (`Merge`, built on `MergeRuns`);
  - as a method running the source's three loops (`MergeLoops`), which is
    proved to compute that function.
- `mergeSort` is a pure function (`MergeSort`). The lemma
  `MergeSortRecursion` proves that it satisfies the source's recursion
  equation: sort `[left, middle]`, sort `[middle + 1, right]`, then merge,
  with `middle = left + (right - left) / 2`.

Some of what the code does is easy to miss on a first reading:

- The block count per axis is `extent / h`. It is not rounded down and has
  no minimum of 1. It is generally not an integer, so the clamp in
  `findBlock` compares an `int` with a non-integral `double`. For 10
  particles per metre the count is below 2 on every axis, and every
  position lands in block (0, 0, 0).
- `findAdjBlocks` keeps the zero offset. A block in range is listed among
  its own neighbours, so a corner block of a large grid lists 8 indices
  and an interior block lists 27. The method is `const`, takes its block
  by value and fills the adjacency list of that copy, so it has no effect.
  The model returns the list of indices it would add.
- `add_particle_to_block` never stores the particle:
  - when the key exists, the particle is added to a local copy of the
    block;
  - when the key is new, an empty block is inserted.

  As a consequence, the vector `writeOutput` sorts and writes is empty
  whatever was read (`Parser.LoadedGridWritesNoParticles`).
- The read loop in `readInput` asks for end-of-file before it reads. It
  therefore runs once more after the last record. That read fails and
  leaves every value zero, so a particle at the origin is also handed to
  `add_particle_to_block` (`Parser.ReadInput`). The counter starts at -1,
  so the extra round brings it back to the number of records.

## Model

| member | source | states |
|---|---|---|
| Particles.NewParticle | sim/particle.cpp:7-8 | the id, position, hv and velocity are stored as given; density starts at 0, acceleration at (0, -9.8, 0), and the flag lowered |
| Particles.SetPosition | sim/particle.cpp:20-22 | the getter returns the new position; every other field, the id included, is unchanged |
| Particles.SetHv | sim/particle.cpp:28 | the getter returns the new hv; every other field is unchanged |
| Particles.SetVelocity | sim/particle.cpp:34-36 | the getter returns the new velocity; every other field is unchanged |
| Particles.SetDensity | sim/particle.cpp:39 | the getter returns the new density; every other field is unchanged |
| Particles.SetAcceleration | sim/particle.cpp:44-46 | the getter returns the new acceleration; every other field is unchanged |
| Particles.UpdateAccBool | sim/particle.cpp:47-48 | the flag is raised and no other field changes |
| Particles.IdentityAndFlagSurviveUpdates | sim/particle.cpp:17-48 | no sequence of setter calls changes the id, and none lowers a raised flag |
| Particles.UpdateAccBoolIdempotent | sim/particle.cpp:48 | raising the flag twice equals raising it once |
| Particles.GettersReadBackSetters | sim/particle.cpp:17-46 | the component getters read axes 0, 1 and 2 of what the matching setter stored |
| Blocks.NewBlock | sim/block.cpp:4 | a new block has the given index, no particles and no neighbours |
| Blocks.NewBlockObservations | sim/block.cpp:4-11 | `get_index` of a new block returns the constructor's index and `getParticles` returns nothing |
| Blocks.AddParticle | sim/block.cpp:14 | the particle is appended after the ones held, which keep their order; index and neighbours are unchanged |
| Blocks.AddAdjacentBlock | sim/block.cpp:17-19 | the block is appended to the neighbour list; particles and index are unchanged |
| Blocks.AddParticlesAppendsInOrder | sim/block.cpp:14 | successive additions leave exactly the old particles followed by the added ones, in the order added |
| Constants.Extent | sim/constants.hpp:27-35 | the box has a positive width along every axis |
| Grids.GeometryOf | sim/grid.cpp:80-87 | counts and sizes derived from a positive smoothing length are positive, and count times size covers the box on every axis |
| Grids.MoveParticleInBounds | sim/grid.cpp:121-131 | the result lies in the box; coordinates inside the box are kept, and those above or below are set to the bound they crossed |
| Grids.MoveParticleInBoundsFixesBox | sim/grid.cpp:122-128 | clamping leaves an in-box position unchanged and is idempotent |
| Grids.Trunc | sim/grid.cpp:106-107 | the int conversion rounds toward zero: the result is within 1 of x, on the side of 0 |
| Grids.FindBlock | sim/grid.cpp:99-119 | every index is at least 0 and at most count - 1, except on an axis with fewer than two blocks, where it is 0 |
| Grids.IndexOfPosition | sim/grid.cpp:100-118 | the same bounds for the index of a bare position |
| Grids.CellOfTrunc | sim/grid.cpp:105-108 | for a non-negative offset, truncating offset / size gives the cell of that width holding the offset |
| Grids.TruncFindsCell | sim/grid.cpp:105-108 | conversely, a non-negative cell holding the offset is the one truncation gives |
| Grids.FoundBlockHoldsPosition | sim/grid.cpp:99-119 | on every axis the block found starts at or below the clamped coordinate, and either holds it or is the last block |
| Grids.CellIsFoundBlock | sim/grid.cpp:99-119 | a block within count - 1 that holds the clamped coordinate is the block found on that axis |
| Grids.FindBlockIgnoresOverflow | sim/grid.cpp:101 | a position outside the box lands in the same block as its clamped image |
| Grids.UpperBoundMapsToLastBlock | sim/grid.cpp:105-116 | a coordinate on or past the upper bound maps to block count - 1 truncated, which is the last whole block, or 0 when the count is below 1 |
| Grids.ClampIndexOnThinAxis | sim/grid.cpp:111-116 | on an axis with fewer than two blocks, the bound check sends every coordinate to 0 |
| Grids.SmallGridHasOneBlock | sim/grid.cpp:111-116 | with fewer than two blocks on every axis, every position lands in block (0, 0, 0) |
| Grids.TenParticlesPerMeterExample | utest/grid_test.cpp:93-107 | the grid for 10 particles per metre puts (0.1, 0.2, 0.3) in block (0, 0, 0) |
| Grids.AddParticleToBlock | sim/grid.cpp:46-58 | the keys become the old keys plus the particle's block; existing blocks are unchanged; a new key gets an empty block |
| Grids.LoadParticlesKeys | sim/grid.cpp:46-58 | adding a list of particles one by one leaves exactly the old keys plus the block of every particle in the list |
| Grids.LoadParticlesStoresNothing | sim/grid.cpp:51-57 | adding a list of particles one by one leaves old blocks unchanged and every new block empty |
| Adjacency.FindAdjBlocks | sim/grid.cpp:133-156 | an index is listed iff it is in range and within one step of the centre on every axis; the list is in the loops' lexicographic order, and its length is the product of the per-axis counts |
| Adjacency.AllOffsetsSorted | sim/grid.cpp:137-154 | the three nested loops visit the indices in ascending lexicographic order |
| Adjacency.FindAdjBlocksShape | sim/grid.cpp:137-154 | at most 27 indices, none repeated, and an in-range centre is listed among its own neighbours |
| Adjacency.CornerBlockHas8 | sim/grid.cpp:137-148 | block (0, 0, 0) of a grid with at least two blocks per axis lists 8 indices, itself included |
| Adjacency.InteriorBlockHas27 | sim/grid.cpp:147-148 | a block with in-range blocks on both sides along every axis lists all 27 offsets |
| Adjacency.NoNeighboursInThinGrid | sim/grid.cpp:147-148 | with a count below 1 on some axis, no index passes the range check |
| Adjacency.AddAdjacentAll | sim/grid.cpp:149-151 | filling the copy appends one fresh block per listed index, in order, and changes nothing else |
| Hashing.MixAll | sim/hash.cpp:11-13 | the loop computes the left-to-right fold of the mixing step over the elements |
| Hashing.HashLoop | sim/hash.cpp:9-15 | the operator equals the fold seeded with the vector's length |
| Hashing.EmptyVectorHashesToZero | sim/hash.cpp:10 | the empty vector hashes to 0 |
| Hashing.HashOfAscending | sim/hash.cpp:9-15 | the operator maps {1, 2, 3}, the first vector of the order unit test, to 0xa16fb2b5814 |
| Hashing.HashOfDescending | sim/hash.cpp:9-15 | the operator maps {3, 2, 1}, the second vector of that test, to 0xa16fb29b1f6 |
| Hashing.HashIsOrderSensitive | utest/math_vector_test.cpp:17-27 | {1, 2, 3} and {3, 2, 1} hash differently |
| MergeSort.MergeRunsPermutes | sim/parser.cpp:180-190 | the merging loops output exactly the particles of both runs, with multiplicities |
| MergeSort.MergeRunsSorted | sim/parser.cpp:180-190 | merging two id-sorted runs gives an id-sorted result |
| MergeSort.MergeRunsStable | sim/parser.cpp:181 | for every id, the particles carrying it come out as those from the left run, then those from the right run, each in their order, because ties take the left run |
| MergeSort.MergeSpec | sim/parser.cpp:169-191 | `merge` leaves everything outside [left, right] unchanged and permutes the segment, which comes out sorted when both halves were |
| MergeSort.MergeWhileBoth | sim/parser.cpp:180-182 | the first loop keeps the merge invariant and stops when one run is used up |
| MergeSort.CopyLeftRest | sim/parser.cpp:184-186 | the second loop keeps the invariant and uses up the left run |
| MergeSort.CopyRightRest | sim/parser.cpp:188-190 | the third loop keeps the invariant and uses up the right run |
| MergeSort.MergeLoops | sim/parser.cpp:169-191 | the three in-place loops compute the pure merge |
| MergeSort.FirstHalfIsMiddle | sim/parser.cpp:246 | with middle = left + (right - left) / 2, the first half holds middle - left + 1 elements |
| MergeSort.SortRunSorted | sim/parser.cpp:242-254 | the recursive sort of a run is id-sorted |
| MergeSort.SortRunPermutes | sim/parser.cpp:242-254 | the recursive sort of a run is a permutation of it |
| MergeSort.SortRunStable | sim/parser.cpp:242-254 | the recursive sort keeps, for every id, the relative order of the particles carrying it |
| MergeSort.MergeSort | sim/parser.cpp:243 | with left >= right the call changes nothing |
| MergeSort.MergeSortSorts | sim/parser.cpp:242-254 | for 0 <= left <= right < size, [left, right] comes out id-sorted as a permutation of its input, and the rest is unchanged |
| MergeSort.MergeSortStable | sim/parser.cpp:242-254 | the sort of [left, right] is stable |
| MergeSort.MergeSortRecursion | sim/parser.cpp:243-252 | the sort equals sorting [left, middle], then [middle + 1, right], then merging |
| MergeSort.MergeSortWhole | sim/parser.cpp:242-254 | sorting the whole of a non-empty vector yields its recursive sort |
| Parser.PrintParameters | sim/parser.cpp:106-124 | the result is 1 iff the counted particles equal np, otherwise 0 |
| Parser.RunSimulation | sim/parser.cpp:42-47 | on a count mismatch, or with no positive step count, the grid is left as read |
| Parser.GateOpenRunsEveryStep | sim/parser.cpp:44-46 | with matching counts, one more requested step is one more step applied to the result |
| Parser.IterateAdd | sim/parser.cpp:44-46 | running n steps and then m steps is running n + m steps |
| Parser.ReadInput | sim/parser.cpp:67-72 | the count is the number of records; the keys are the records' blocks plus the block of the origin; every block is empty |
| Parser.FlattenMembers | sim/parser.cpp:130-134 | a particle is collected iff some listed block holds it |
| Parser.FlattenAppend | sim/parser.cpp:131-134 | collecting two lists of blocks in a row concatenates their collections |
| Parser.FlattenReorder | sim/parser.cpp:131-134 | any order of the same keys collects the same multiset of particles |
| Parser.FlattenOfEmptyBlocks | sim/parser.cpp:131-134 | blocks without particles contribute nothing |
| Parser.ToInt32 | sim/parser.cpp:135 | the conversion to int lies in the 32-bit range, never exceeds its input, keeps values below 2^31, and maps values from 2^31 to 2^32 - 1 to that value minus 2^32 |
| Parser.ToInt32Congruent | sim/parser.cpp:135 | the conversion keeps the value modulo 2^32 |
| Parser.LastIndexAsInt | sim/parser.cpp:135 | size() - 1 as an int is -1 for the empty vector and size - 1 up to 2^31 elements, and always below the size |
| Parser.SortForOutputOfEmpty | sim/parser.cpp:135 | the empty vector passes through the sort unchanged |
| Parser.SortForOutputSkipsHugeVectors | sim/parser.cpp:135 | from 2^31 + 1 to 2^32 elements, right becomes negative and the vector is left as it was |
| Parser.LastIndexAsIntWraps | sim/parser.cpp:135 | the last index passed to the sort is congruent to size() - 1 modulo 2^32 |
| Parser.SortForOutputSorts | sim/parser.cpp:135 | up to 2^31 elements the output vector is id-sorted and a permutation of the collected particles |
| Parser.SortForOutputStable | sim/parser.cpp:135 | particles with equal ids are written in the order they were collected |
| Parser.SortedPermutationsAgree | sim/parser.cpp:135 | two id-sorted vectors with the same particles are equal when an id identifies its particle |
| Parser.OutputIndependentOfMapOrder | sim/parser.cpp:130-135 | when ids identify particles, the written order does not depend on the map's iteration order |
| Parser.LoadedGridWritesNoParticles | sim/parser.cpp:130-135 | after the read loop, the collected and sorted vector is empty |
| ProgArgs.CheckFile | sim/progargs.cpp:18-25 | the check yields 0 for a file that opens and its error code otherwise |
| ProgArgs.ProgArgs | sim/progargs.cpp:3-28 | a wrong argument count gives -1; then a zero step count gives -1 and a negative one -2; otherwise the result is between -7 and 0 |
| ProgArgs.AcceptsExactlyValidArguments | sim/progargs.cpp:4-27 | the result is 0 iff argc is 4, the step count is positive and both files open |
| ProgArgs.ResultCodes | sim/progargs.cpp:18-27 | every result is one of 0, -1, -2, -3, -4 and -7; past the first checks, -3 or -7 means the input failed and -4 or -7 means the output failed |
| ProgArgs.EarlierFailuresWin | sim/progargs.cpp:4-17 | with a bad argument count or step count, the file checks do not affect the negative result |
| ProgArgs.UnitTestCases | utest/progargs_test.cpp:4-56 | the six unit-test scenarios return 0, -1, -1, -2, -3 and -4 |

## Left out

- The physics: `incDensity`, `findDistance`, `accelerationTransfer`, `particleMotion`, `boxCollisions`, `boundaryCollisions` and `sim/formulas.cpp`. They are floating-point arithmetic with `pow` and `sqrt`.
- `simulateOneStep`. `sim/simulation.cpp` uses members that do not exist, so it is not part of this model. `Parser.RunSimulation` takes the step as a function parameter.
- The `Grid` constructor and the rest of `update_grid`: mass, powers of h and the transfer constants use `M_PI` and `pow`. `GeometryOf` covers only the counts and sizes; otherwise they are given positive reals.
- Binary I/O:
  - `as_buffer` and `as_writable_buffer`;
  - `read_binary_value` and `write_binary_value`;
  - `readParticle` and `writeParticle`;
  - the file handling in `readInput` and `writeOutput`.

  The file is given as its list of records (`Parser.Record`), and end-of-file is reaching the end of that list. A file whose size is not a whole number of records is not modelled.
- Console output in `printParameters` and `progargs`.
- `std::stoi`. The step count is taken as an already parsed int, so the exception on non-numeric text is not modelled.
- Whether a file opens. Both checks are boolean inputs.
- Rounding of single and double precision, including the `static_cast<float>` of the bounds in `moveParticleInBounds`. Everything is an exact real.
- `int` overflow of `centerIndex + i` in `findAdjBlocks`, and of `static_cast<int>` on huge quotients in `findBlock`. Block indices are unbounded integers.
- Grid getters, the `Particle` copy constructor and destructor, `main.cpp`, `fluid/fluid.cpp`, and the `src/sim` prototype.
- The internals of `unordered_map`. Hashing is modelled separately; the map is a Dafny `map`.
- Parser.SortForOutputSorts: requires at most 2^31 particles. From 2^31 + 1 to 2^32 particles, `size() - 1` turns negative and nothing is sorted (`Parser.SortForOutputSkipsHugeVectors`). Above 2^32 it wraps to the int congruent to size() - 1 modulo 2^32 (`Parser.LastIndexAsIntWraps`), so when that int is not negative only a prefix is sorted; the output for those sizes is not modelled further.
- Hashing.HashLoop: requires fewer than 2^64 elements, the range of `size_t`.
- Parser.RunSimulation: runs a function parameter in place of `simulateOneStep`, so it only states when and how often the step runs.
