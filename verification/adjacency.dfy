/**
 * Neighbour enumeration of the spatial grid (Grid::findAdjBlocks in
 * sim/grid.cpp). The source runs three nested loops i, j, k over -1..1 and
 * keeps each shifted index whose coordinates are at least 0 and at most
 * count - 1 (compared as reals). The zero offset is not skipped. The source
 * method is const and fills a by-value copy of the block, so its only
 * observable content is the list of indices it would add; that list is
 * what is modelled here.
 */
module Adjacency {
  import opened Vectors
  import opened Blocks
  import opened Grids

  /** The source's acceptance test for a candidate neighbour. */
  predicate InGrid(g: Geometry, x: Index3)
  {
    && 0 <= x[0] && x[0] as real <= g.number[0] - 1.0
    && 0 <= x[1] && x[1] as real <= g.number[1] - 1.0
    && 0 <= x[2] && x[2] as real <= g.number[2] - 1.0
  }

  /** x differs from c by at most one along every axis. */
  predicate Near(c: Index3, x: Index3)
  {
    && -1 <= x[0] - c[0] <= 1
    && -1 <= x[1] - c[1] <= 1
    && -1 <= x[2] - c[2] <= 1
  }

  /** Lexicographic order on block indices, which is the loops' order. */
  predicate LexLess(a: Index3, b: Index3)
  {
    a[0] < b[0] || (a[0] == b[0] && (a[1] < b[1] || (a[1] == b[1] && a[2] < b[2])))
  }

  predicate LexSorted(s: seq<Index3>)
  {
    forall a, b :: 0 <= a < b < |s| ==> LexLess(s[a], s[b])
  }

  // Near the centre c, lexicographic order is the order of the position
  // of the offset in the 3 x 3 x 3 cube, which is one linear quantity.
  // The loops are shown to walk that position upwards.

  /** Position of x's offset from c in the i-major, then j, then k order. */
  function Rank(c: Index3, x: Index3): int
  {
    9 * (x[0] - c[0]) + 3 * (x[1] - c[1]) + (x[2] - c[2])
  }

  predicate Ascending(c: Index3, s: seq<Index3>)
  {
    forall a, b :: 0 <= a < b < |s| ==> Rank(c, s[a]) < Rank(c, s[b])
  }

  /** Every index of s ranks below every index of t. */
  predicate RanksBelow(c: Index3, s: seq<Index3>, t: seq<Index3>)
  {
    forall a, b :: 0 <= a < |s| && 0 <= b < |t| ==> Rank(c, s[a]) < Rank(c, t[b])
  }

  lemma AscendingConcat(c: Index3, s: seq<Index3>, t: seq<Index3>, st: seq<Index3>)
    requires Ascending(c, s) && Ascending(c, t) && RanksBelow(c, s, t)
    requires st == s + t
    ensures Ascending(c, st)
  {
    forall a, b | 0 <= a < b < |st|
      ensures Rank(c, st[a]) < Rank(c, st[b])
    {
      if b < |s| {
        assert st[a] == s[a] && st[b] == s[b];
      } else if a >= |s| {
        assert st[a] == t[a - |s|] && st[b] == t[b - |s|];
      } else {
        assert st[a] == s[a] && st[b] == t[b - |s|];
      }
    }
  }

  /** Among indices within one step of c, a lower rank is lexicographically
      smaller. */
  lemma AscendingIsLexSorted(c: Index3, s: seq<Index3>)
    requires Ascending(c, s)
    requires forall x :: x in s ==> Near(c, x)
    ensures LexSorted(s)
  {
    forall a, b | 0 <= a < b < |s|
      ensures LexLess(s[a], s[b])
    {
      assert Near(c, s[a]) && Near(c, s[b]);
      assert Rank(c, s[a]) < Rank(c, s[b]);
    }
  }

  /** Is coordinate v in range along an axis with count `number`? */
  predicate AxisOk(v: int, number: real)
  {
    0 <= v && v as real <= number - 1.0
  }

  // The three loops, innermost first. Each walks its offset from the given
  // value up to 1.

  function LoopK(g: Geometry, c: Index3, i: int, j: int, k: int): seq<Index3>
    requires -1 <= k <= 2
    decreases 2 - k
  {
    if k == 2 then []
    else
      var x: Index3 := [c[0] + i, c[1] + j, c[2] + k];
      (if InGrid(g, x) then [x] else []) + LoopK(g, c, i, j, k + 1)
  }

  function LoopJ(g: Geometry, c: Index3, i: int, j: int): seq<Index3>
    requires -1 <= j <= 2
    decreases 2 - j
  {
    if j == 2 then [] else LoopK(g, c, i, j, -1) + LoopJ(g, c, i, j + 1)
  }

  function LoopI(g: Geometry, c: Index3, i: int): seq<Index3>
    requires -1 <= i <= 2
    decreases 2 - i
  {
    if i == 2 then [] else LoopJ(g, c, i, -1) + LoopI(g, c, i + 1)
  }

  /** Number of offsets d in from..1 with c + d in range on one axis. */
  function AxisCount(c: int, number: real, from: int): nat
    requires -1 <= from <= 2
    decreases 2 - from
  {
    if from == 2 then 0 else (if AxisOk(c + from, number) then 1 else 0) + AxisCount(c, number, from + 1)
  }

  lemma {:induction false} LoopKMembers(g: Geometry, c: Index3, i: int, j: int, k: int)
    requires -1 <= k <= 2
    ensures forall x :: x in LoopK(g, c, i, j, k) <==>
      InGrid(g, x) && x[0] == c[0] + i && x[1] == c[1] + j && k <= x[2] - c[2] <= 1
    decreases 2 - k
  {
    if k < 2 {
      LoopKMembers(g, c, i, j, k + 1);
      var x0: Index3 := [c[0] + i, c[1] + j, c[2] + k];
      forall x: Index3 | x[0] == c[0] + i && x[1] == c[1] + j && x[2] - c[2] == k
        ensures x == x0
      {
      }
    }
  }

  lemma {:induction false} LoopJMembers(g: Geometry, c: Index3, i: int, j: int)
    requires -1 <= j <= 2
    ensures forall x :: x in LoopJ(g, c, i, j) <==>
      InGrid(g, x) && x[0] == c[0] + i && j <= x[1] - c[1] <= 1 && -1 <= x[2] - c[2] <= 1
    decreases 2 - j
  {
    if j < 2 {
      LoopKMembers(g, c, i, j, -1);
      LoopJMembers(g, c, i, j + 1);
    }
  }

  lemma {:induction false} LoopIMembers(g: Geometry, c: Index3, i: int)
    requires -1 <= i <= 2
    ensures forall x :: x in LoopI(g, c, i) <==>
      InGrid(g, x) && i <= x[0] - c[0] <= 1 && -1 <= x[1] - c[1] <= 1 && -1 <= x[2] - c[2] <= 1
    decreases 2 - i
  {
    if i < 2 {
      LoopJMembers(g, c, i, -1);
      LoopIMembers(g, c, i + 1);
    }
  }

  // Where the indices of each loop lie relative to the centre, without the
  // range check.

  lemma {:induction false} LoopKOffsets(g: Geometry, c: Index3, i: int, j: int, k: int)
    requires -1 <= k <= 2
    ensures forall x :: x in LoopK(g, c, i, j, k) ==>
      x[0] - c[0] == i && x[1] - c[1] == j && k <= x[2] - c[2] <= 1
    decreases 2 - k
  {
    if k < 2 {
      LoopKOffsets(g, c, i, j, k + 1);
    }
  }

  lemma {:induction false} LoopJOffsets(g: Geometry, c: Index3, i: int, j: int)
    requires -1 <= j <= 2
    ensures forall x :: x in LoopJ(g, c, i, j) ==>
      x[0] - c[0] == i && j <= x[1] - c[1] <= 1 && -1 <= x[2] - c[2] <= 1
    decreases 2 - j
  {
    if j < 2 {
      LoopKOffsets(g, c, i, j, -1);
      LoopJOffsets(g, c, i, j + 1);
    }
  }

  lemma {:induction false} LoopIOffsets(g: Geometry, c: Index3, i: int)
    requires -1 <= i <= 2
    ensures forall x :: x in LoopI(g, c, i) ==>
      i <= x[0] - c[0] <= 1 && -1 <= x[1] - c[1] <= 1 && -1 <= x[2] - c[2] <= 1
    decreases 2 - i
  {
    if i < 2 {
      LoopJOffsets(g, c, i, -1);
      LoopIOffsets(g, c, i + 1);
    }
  }

  lemma {:induction false} LoopKSorted(g: Geometry, c: Index3, i: int, j: int, k: int)
    requires -1 <= k <= 2
    ensures Ascending(c, LoopK(g, c, i, j, k))
    decreases 2 - k
  {
    if k < 2 {
      var x: Index3 := [c[0] + i, c[1] + j, c[2] + k];
      var head: seq<Index3> := if InGrid(g, x) then [x] else [];
      var rest := LoopK(g, c, i, j, k + 1);
      LoopKSorted(g, c, i, j, k + 1);
      LoopKOffsets(g, c, i, j, k + 1);
      forall a, b | 0 <= a < |head| && 0 <= b < |rest|
        ensures Rank(c, head[a]) < Rank(c, rest[b])
      {
        assert rest[b] in rest;
      }
      AscendingConcat(c, head, rest, LoopK(g, c, i, j, k));
    }
  }

  /** Every index of the k loop for one j ranks below every index of the
      later j iterations. */
  lemma LoopKBeforeLoopJ(g: Geometry, c: Index3, i: int, j: int)
    requires -1 <= j < 2
    ensures RanksBelow(c, LoopK(g, c, i, j, -1), LoopJ(g, c, i, j + 1))
  {
    var head, rest := LoopK(g, c, i, j, -1), LoopJ(g, c, i, j + 1);
    LoopKOffsets(g, c, i, j, -1);
    LoopJOffsets(g, c, i, j + 1);
    forall a, b | 0 <= a < |head| && 0 <= b < |rest|
      ensures Rank(c, head[a]) < Rank(c, rest[b])
    {
      assert head[a] in head && rest[b] in rest;
    }
  }

  /** Every index of the j loop for one i ranks below every index of the
      later i iterations. */
  lemma LoopJBeforeLoopI(g: Geometry, c: Index3, i: int)
    requires -1 <= i < 2
    ensures RanksBelow(c, LoopJ(g, c, i, -1), LoopI(g, c, i + 1))
  {
    var head, rest := LoopJ(g, c, i, -1), LoopI(g, c, i + 1);
    LoopJOffsets(g, c, i, -1);
    LoopIOffsets(g, c, i + 1);
    forall a, b | 0 <= a < |head| && 0 <= b < |rest|
      ensures Rank(c, head[a]) < Rank(c, rest[b])
    {
      assert head[a] in head && rest[b] in rest;
    }
  }

  lemma {:induction false} LoopJSorted(g: Geometry, c: Index3, i: int, j: int)
    requires -1 <= j <= 2
    ensures Ascending(c, LoopJ(g, c, i, j))
    decreases 2 - j
  {
    if j < 2 {
      LoopKSorted(g, c, i, j, -1);
      LoopJSorted(g, c, i, j + 1);
      LoopKBeforeLoopJ(g, c, i, j);
      LoopJStep(g, c, i, j);
    }
  }

  lemma {:induction false} LoopISorted(g: Geometry, c: Index3, i: int)
    requires -1 <= i <= 2
    ensures Ascending(c, LoopI(g, c, i))
    decreases 2 - i
  {
    if i < 2 {
      LoopJSorted(g, c, i, -1);
      LoopISorted(g, c, i + 1);
      LoopJBeforeLoopI(g, c, i);
      LoopIStep(g, c, i);
    }
  }

  /** One iteration of the j loop keeps the walk ascending. */
  lemma LoopJStep(g: Geometry, c: Index3, i: int, j: int)
    requires -1 <= j < 2
    requires Ascending(c, LoopK(g, c, i, j, -1)) && Ascending(c, LoopJ(g, c, i, j + 1))
    requires RanksBelow(c, LoopK(g, c, i, j, -1), LoopJ(g, c, i, j + 1))
    ensures Ascending(c, LoopJ(g, c, i, j))
  {
    AscendingConcat(c, LoopK(g, c, i, j, -1), LoopJ(g, c, i, j + 1), LoopJ(g, c, i, j));
  }

  /** One iteration of the i loop keeps the walk ascending. */
  lemma LoopIStep(g: Geometry, c: Index3, i: int)
    requires -1 <= i < 2
    requires Ascending(c, LoopJ(g, c, i, -1)) && Ascending(c, LoopI(g, c, i + 1))
    requires RanksBelow(c, LoopJ(g, c, i, -1), LoopI(g, c, i + 1))
    ensures Ascending(c, LoopI(g, c, i))
  {
    AscendingConcat(c, LoopJ(g, c, i, -1), LoopI(g, c, i + 1), LoopI(g, c, i));
  }

  /** The full walk is in lexicographic order. */
  lemma AllOffsetsSorted(g: Geometry, c: Index3)
    ensures LexSorted(LoopI(g, c, -1))
  {
    LoopISorted(g, c, -1);
    LoopIOffsets(g, c, -1);
    AscendingIsLexSorted(c, LoopI(g, c, -1));
  }

  lemma {:induction false} LoopKCount(g: Geometry, c: Index3, i: int, j: int, k: int)
    requires -1 <= k <= 2
    ensures |LoopK(g, c, i, j, k)| ==
      if AxisOk(c[0] + i, g.number[0]) && AxisOk(c[1] + j, g.number[1]) then AxisCount(c[2], g.number[2], k) else 0
    decreases 2 - k
  {
    if k < 2 {
      LoopKCount(g, c, i, j, k + 1);
    }
  }

  lemma {:induction false} LoopJCount(g: Geometry, c: Index3, i: int, j: int)
    requires -1 <= j <= 2
    ensures |LoopJ(g, c, i, j)| ==
      if AxisOk(c[0] + i, g.number[0]) then AxisCount(c[1], g.number[1], j) * AxisCount(c[2], g.number[2], -1) else 0
    decreases 2 - j
  {
    if j < 2 {
      LoopKCount(g, c, i, j, -1);
      LoopJCount(g, c, i, j + 1);
      var c1 := AxisCount(c[1], g.number[1], j + 1);
      var c2 := AxisCount(c[2], g.number[2], -1);
      MulDistributes(if AxisOk(c[1] + j, g.number[1]) then 1 else 0, c1, c2);
    }
  }

  lemma MulDistributes(a: int, b: int, c: int)
    ensures (a + b) * c == a * c + b * c
  {
  }

  lemma MulBounded(a: int, b: int, ka: int, kb: int)
    requires 0 <= a <= ka && 0 <= b <= kb
    ensures 0 <= a * b <= ka * kb
  {
    assert a * b <= ka * b;
    assert ka * b <= ka * kb;
  }

  lemma {:induction false} LoopICount(g: Geometry, c: Index3, i: int)
    requires -1 <= i <= 2
    ensures |LoopI(g, c, i)| ==
      AxisCount(c[0], g.number[0], i) * (AxisCount(c[1], g.number[1], -1) * AxisCount(c[2], g.number[2], -1))
    decreases 2 - i
  {
    if i < 2 {
      LoopJCount(g, c, i, -1);
      LoopICount(g, c, i + 1);
      var c0 := AxisCount(c[0], g.number[0], i + 1);
      var c12 := AxisCount(c[1], g.number[1], -1) * AxisCount(c[2], g.number[2], -1);
      var b := if AxisOk(c[0] + i, g.number[0]) then 1 else 0;
      assert |LoopJ(g, c, i, -1)| == b * c12;
      assert |LoopI(g, c, i)| == |LoopJ(g, c, i, -1)| + |LoopI(g, c, i + 1)|;
      assert AxisCount(c[0], g.number[0], i) == b + c0;
      MulDistributes(b, c0, c12);
      assert AxisCount(c[0], g.number[0], i) * c12 == b * c12 + c0 * c12;
    }
  }

  /** The indices findAdjBlocks visits and accepts, in visiting order:
      exactly the in-range indices within one step of the center along
      every axis, each once, in lexicographic order. */
  function FindAdjBlocks(g: Geometry, center: Block): (r: seq<Index3>)
    ensures forall x :: x in r <==> InGrid(g, x) && Near(center.index, x)
    ensures LexSorted(r)
    ensures |r| == AxisCount(center.index[0], g.number[0], -1)
                 * (AxisCount(center.index[1], g.number[1], -1) * AxisCount(center.index[2], g.number[2], -1))
  {
    AllOffsetsMembers(g, center.index);
    AllOffsetsSorted(g, center.index);
    LoopICount(g, center.index, -1);
    LoopI(g, center.index, -1)
  }

  lemma AllOffsetsMembers(g: Geometry, c: Index3)
    ensures forall x :: x in LoopI(g, c, -1) <==> InGrid(g, x) && Near(c, x)
  {
    LoopIMembers(g, c, -1);
  }

  lemma AxisCountAtMostThree(c: int, number: real)
    ensures AxisCount(c, number, -1) <= 3
  {
  }

  /** At most 27 indices, none repeated, and a block in the grid is listed
      among its own neighbours. */
  lemma FindAdjBlocksShape(g: Geometry, center: Block)
    ensures |FindAdjBlocks(g, center)| <= 27
    ensures forall a, b :: 0 <= a < b < |FindAdjBlocks(g, center)| ==>
      FindAdjBlocks(g, center)[a] != FindAdjBlocks(g, center)[b]
    ensures InGrid(g, center.index) ==> center.index in FindAdjBlocks(g, center)
  {
    var r := FindAdjBlocks(g, center);
    var c := center.index;
    AxisCountAtMostThree(c[0], g.number[0]);
    AxisCountAtMostThree(c[1], g.number[1]);
    AxisCountAtMostThree(c[2], g.number[2]);
    var a0 := AxisCount(c[0], g.number[0], -1);
    var a1 := AxisCount(c[1], g.number[1], -1);
    var a2 := AxisCount(c[2], g.number[2], -1);
    MulBounded(a1, a2, 3, 3);
    MulBounded(a0, a1 * a2, 3, 9);
    assert forall a, b :: 0 <= a < b < |r| ==> LexLess(r[a], r[b]);
    assert Near(c, c);
  }

  /** The corner block (0, 0, 0) of a grid with at least two blocks per
      axis lists 8 indices: itself and its 7 neighbours. */
  lemma CornerBlockHas8(g: Geometry, center: Block)
    requires center.index == [0, 0, 0]
    requires g.number[0] >= 2.0 && g.number[1] >= 2.0 && g.number[2] >= 2.0
    ensures |FindAdjBlocks(g, center)| == 8
  {
    assert AxisCount(0, g.number[0], -1) == 2;
    assert AxisCount(0, g.number[1], -1) == 2;
    assert AxisCount(0, g.number[2], -1) == 2;
  }

  /** A block with an in-range index on both sides along every axis lists
      all 27 offsets. */
  lemma InteriorBlockHas27(g: Geometry, center: Block)
    requires forall i :: 0 <= i < 3 ==> 1 <= center.index[i] && (center.index[i] + 1) as real <= g.number[i] - 1.0
    ensures |FindAdjBlocks(g, center)| == 27
  {
    var c := center.index;
    assert AxisCount(c[0], g.number[0], -1) == 3;
    assert AxisCount(c[1], g.number[1], -1) == 3;
    assert AxisCount(c[2], g.number[2], -1) == 3;
  }

  /** With a count below 1 along some axis no index passes the range
      check, so no block has neighbours (as for 10 particles per meter). */
  lemma NoNeighboursInThinGrid(g: Geometry, center: Block)
    requires g.number[0] < 1.0 || g.number[1] < 1.0 || g.number[2] < 1.0
    ensures FindAdjBlocks(g, center) == []
  {
    var c := center.index;
    assert AxisCount(c[0], g.number[0], -1) == 0 || AxisCount(c[1], g.number[1], -1) == 0
      || AxisCount(c[2], g.number[2], -1) == 0;
  }

  /** The source fills the adjacency list of a by-value copy of the block
      with fresh blocks at the listed indices; the copy is then dropped. */
  function AddAdjacentAll(b: Block, indices: seq<Index3>): (r: Block)
    ensures r.index == b.index && r.particles == b.particles
    ensures |r.adjBlocks| == |b.adjBlocks| + |indices|
    ensures r.adjBlocks[..|b.adjBlocks|] == b.adjBlocks
    ensures forall k :: 0 <= k < |indices| ==> r.adjBlocks[|b.adjBlocks| + k] == NewBlock(indices[k])
    decreases |indices|
  {
    if indices == [] then b
    else AddAdjacentAll(AddAdjacentBlock(b, NewBlock(indices[0])), indices[1..])
  }
}
