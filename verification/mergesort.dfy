/**
 * The output ordering of sim/parser.cpp: `merge` and the recursive
 * `mergeSort`, which sort a segment [left..right] (both ends included) of a
 * particle vector by ascending id. Sequences stand in for the vector; each
 * operation returns the updated sequence.
 */
module MergeSort {
  import opened Particles

  predicate SortedById(s: seq<Particle>)
  {
    forall i, j :: 0 <= i < j < |s| ==> s[i].id <= s[j].id
  }

  /** The particles of s that carry identity x, in their order in s. Two
      sequences with the same WithId for every x hold the same particles
      with equal ids in the same relative order: that is stability. */
  function WithId(s: seq<Particle>, x: int): seq<Particle>
    decreases |s|
  {
    if s == [] then [] else (if s[0].id == x then [s[0]] else []) + WithId(s[1..], x)
  }

  lemma {:induction false} WithIdAppend(s: seq<Particle>, t: seq<Particle>, x: int)
    ensures WithId(s + t, x) == WithId(s, x) + WithId(t, x)
    decreases |s|
  {
    if s != [] {
      assert (s + t)[1..] == s[1..] + t;
      WithIdAppend(s[1..], t, x);
    } else {
      assert s + t == t;
    }
  }

  lemma {:induction false} WithIdAbsent(s: seq<Particle>, x: int)
    requires forall k :: 0 <= k < |s| ==> s[k].id != x
    ensures WithId(s, x) == []
    decreases |s|
  {
    if s != [] {
      WithIdAbsent(s[1..], x);
    }
  }

  /** The merging loops of `merge` on the two runs L and R: while both are
      non-empty take the head of L when its id is <= the head of R (so L
      wins ties), else the head of R; then copy what is left. */
  function MergeRuns(L: seq<Particle>, R: seq<Particle>): (r: seq<Particle>)
    ensures |r| == |L| + |R|
    decreases |L| + |R|
  {
    if L == [] then R
    else if R == [] then L
    else if L[0].id <= R[0].id then [L[0]] + MergeRuns(L[1..], R)
    else [R[0]] + MergeRuns(L, R[1..])
  }

  /** Merging loses and invents nothing. */
  lemma {:induction false} MergeRunsPermutes(L: seq<Particle>, R: seq<Particle>)
    ensures multiset(MergeRuns(L, R)) == multiset(L) + multiset(R)
    decreases |L| + |R|
  {
    if L != [] && R != [] {
      if L[0].id <= R[0].id {
        MergeRunsPermutes(L[1..], R);
        ConsPermutes(MergeRuns(L, R), L, L[0], MergeRuns(L[1..], R), L[1..], R);
      } else {
        MergeRunsPermutes(L, R[1..]);
        ConsPermutes(MergeRuns(L, R), R, R[0], MergeRuns(L, R[1..]), R[1..], L);
      }
    }
  }

  /** One step of the permutation argument: r = [x] + rest where rest
      permutes T + U and S = [x] + T. */
  lemma ConsPermutes(r: seq<Particle>, S: seq<Particle>, x: Particle, rest: seq<Particle>, T: seq<Particle>, U: seq<Particle>)
    requires r == [x] + rest && S == [x] + T
    requires multiset(rest) == multiset(T) + multiset(U)
    ensures multiset(r) == multiset(S) + multiset(U)
  {
  }

  /** Every id in s is at least b. */
  predicate IdsAtLeast(s: seq<Particle>, b: int)
  {
    forall k :: 0 <= k < |s| ==> b <= s[k].id
  }

  lemma {:induction false} MergeRunsKeepsLowerBound(L: seq<Particle>, R: seq<Particle>, b: int)
    requires IdsAtLeast(L, b) && IdsAtLeast(R, b)
    ensures IdsAtLeast(MergeRuns(L, R), b)
    decreases |L| + |R|
  {
    if L != [] && R != [] {
      if L[0].id <= R[0].id {
        MergeRunsKeepsLowerBound(L[1..], R, b);
      } else {
        MergeRunsKeepsLowerBound(L, R[1..], b);
      }
    }
  }

  lemma {:induction false} MergeRunsSorted(L: seq<Particle>, R: seq<Particle>)
    requires SortedById(L) && SortedById(R)
    ensures SortedById(MergeRuns(L, R))
    decreases |L| + |R|
  {
    if L != [] && R != [] {
      if L[0].id <= R[0].id {
        MergeRunsSorted(L[1..], R);
        MergeRunsKeepsLowerBound(L[1..], R, L[0].id);
      } else {
        MergeRunsSorted(L, R[1..]);
        MergeRunsKeepsLowerBound(L, R[1..], R[0].id);
      }
    }
  }

  lemma MergeRunsSortedIfRunsSorted(L: seq<Particle>, R: seq<Particle>)
    ensures SortedById(L) && SortedById(R) ==> SortedById(MergeRuns(L, R))
  {
    if SortedById(L) && SortedById(R) {
      MergeRunsSorted(L, R);
    }
  }

  /** Merging keeps, for every id, the particles of L with that id ahead of
      those of R: on equal ids the left run is taken first. */
  lemma {:induction false} MergeRunsStable(L: seq<Particle>, R: seq<Particle>, x: int)
    requires SortedById(L)
    ensures WithId(MergeRuns(L, R), x) == WithId(L, x) + WithId(R, x)
    decreases |L| + |R|
  {
    if L == [] {
      assert WithId(L, x) == [];
    } else if R == [] {
      assert WithId(R, x) == [];
    } else if L[0].id <= R[0].id {
      var rest := MergeRuns(L[1..], R);
      assert MergeRuns(L, R) == [L[0]] + rest;
      MergeRunsStable(L[1..], R, x);
      WithIdAppend([L[0]], rest, x);
      assert L == [L[0]] + L[1..];
      WithIdAppend([L[0]], L[1..], x);
      var a, b, c := WithId([L[0]], x), WithId(L[1..], x), WithId(R, x);
      assert WithId(MergeRuns(L, R), x) == a + (b + c);
      assert a + (b + c) == (a + b) + c;
    } else {
      var rest := MergeRuns(L, R[1..]);
      assert MergeRuns(L, R) == [R[0]] + rest;
      MergeRunsStable(L, R[1..], x);
      WithIdAppend([R[0]], rest, x);
      assert R == [R[0]] + R[1..];
      WithIdAppend([R[0]], R[1..], x);
      var a, b, c := WithId([R[0]], x), WithId(L, x), WithId(R[1..], x);
      assert WithId(MergeRuns(L, R), x) == a + (b + c);
      if R[0].id == x {
        WithIdAbsent(L, x);
        assert b == [];
      } else {
        assert a == [];
      }
      assert a + (b + c) == b + (a + c);
    }
  }

  /** The three parts of a concatenation are recovered by slicing. */
  lemma SpliceParts(p: seq<Particle>, x: seq<Particle>, q: seq<Particle>)
    ensures (p + x + q)[..|p|] == p
    ensures (p + x + q)[|p|..|p| + |x|] == x
    ensures (p + x + q)[|p| + |x|..] == q
  {
  }

  /** A sequence is its prefix, a segment and its suffix put together. */
  lemma SpliceWhole(s: seq<Particle>, lo: int, hi: int)
    requires 0 <= lo <= hi <= |s|
    ensures s == s[..lo] + s[lo..hi] + s[hi..]
  {
  }

  /** `merge(particles, left, middle, right)`: the runs [left..middle] and
      [middle+1..right] are merged in place; everything else stays. */
  function Merge(s: seq<Particle>, left: int, middle: int, right: int): (r: seq<Particle>)
    requires 0 <= left <= middle <= right < |s|
    ensures |r| == |s|
  {
    s[..left] + MergeRuns(s[left..middle + 1], s[middle + 1..right + 1]) + s[right + 1..]
  }

  /** Merging leaves everything outside [left..right] alone, permutes the
      segment, and sorts it when both runs were sorted. */
  lemma MergeSpec(s: seq<Particle>, left: int, middle: int, right: int)
    requires 0 <= left <= middle <= right < |s|
    ensures Merge(s, left, middle, right)[..left] == s[..left]
    ensures Merge(s, left, middle, right)[right + 1..] == s[right + 1..]
    ensures multiset(Merge(s, left, middle, right)[left..right + 1]) == multiset(s[left..right + 1])
    ensures SortedById(s[left..middle + 1]) && SortedById(s[middle + 1..right + 1]) ==>
      SortedById(Merge(s, left, middle, right)[left..right + 1])
  {
    var L, R := s[left..middle + 1], s[middle + 1..right + 1];
    SpliceParts(s[..left], MergeRuns(L, R), s[right + 1..]);
    assert s[left..right + 1] == L + R;
    MergeRunsPermutes(L, R);
    MergeRunsSortedIfRunsSorted(L, R);
  }

  /** One step of the merging loop: with both runs non-empty, the merged
      output starts with the smaller head, the left one on a tie. */
  lemma MergeRunsUnfold(L: seq<Particle>, R: seq<Particle>, i: nat, j: nat)
    requires i <= |L| && j <= |R| && (i < |L| || j < |R|)
    ensures i < |L| && (j == |R| || L[i].id <= R[j].id) ==>
      MergeRuns(L[i..], R[j..]) == [L[i]] + MergeRuns(L[i + 1..], R[j..])
    ensures j < |R| && (i == |L| || L[i].id > R[j].id) ==>
      MergeRuns(L[i..], R[j..]) == [R[j]] + MergeRuns(L[i..], R[j + 1..])
  {
    if i < |L| {
      assert L[i..][1..] == L[i + 1..];
    }
    if j < |R| {
      assert R[j..][1..] == R[j + 1..];
    }
    if i < |L| && j == |R| {
      assert MergeRuns(L[i + 1..], R[j..]) == L[i + 1..];
      assert L[i..] == [L[i]] + L[i + 1..];
    }
    if j < |R| && i == |L| {
      assert MergeRuns(L[i..], R[j + 1..]) == R[j + 1..];
      assert R[j..] == [R[j]] + R[j + 1..];
    }
  }

  /** The state the loops of `merge` keep: positions left.. hold the merged
      prefix `done`, and merging what is left of the runs completes it. */
  ghost predicate MergeState(p: seq<Particle>, left: int, L: seq<Particle>, R: seq<Particle>,
                             i: int, j: int, done: seq<Particle>, out: seq<Particle>)
  {
    && 0 <= left && 0 <= i <= |L| && 0 <= j <= |R| && left + |L| + |R| <= |p|
    && |done| == i + j
    && out == p[..left] + done + p[left + i + j..]
    && done + MergeRuns(L[i..], R[j..]) == MergeRuns(L, R)
  }

  lemma Associate(a: seq<Particle>, b: seq<Particle>, c: seq<Particle>)
    ensures a + (b + c) == (a + b) + c
  {
  }

  /** Taking the head of the left run extends the merged prefix. */
  lemma RunsStepLeft(L: seq<Particle>, R: seq<Particle>, i: int, j: int, done: seq<Particle>)
    requires 0 <= i < |L| && 0 <= j <= |R| && (j == |R| || L[i].id <= R[j].id)
    requires done + MergeRuns(L[i..], R[j..]) == MergeRuns(L, R)
    ensures (done + [L[i]]) + MergeRuns(L[i + 1..], R[j..]) == MergeRuns(L, R)
  {
    MergeRunsUnfold(L, R, i, j);
    var rest := MergeRuns(L[i + 1..], R[j..]);
    Associate(done, [L[i]], rest);
  }

  /** Taking the head of the right run extends the merged prefix. */
  lemma RunsStepRight(L: seq<Particle>, R: seq<Particle>, i: int, j: int, done: seq<Particle>)
    requires 0 <= i <= |L| && 0 <= j < |R| && (i == |L| || L[i].id > R[j].id)
    requires done + MergeRuns(L[i..], R[j..]) == MergeRuns(L, R)
    ensures (done + [R[j]]) + MergeRuns(L[i..], R[j + 1..]) == MergeRuns(L, R)
  {
    MergeRunsUnfold(L, R, i, j);
    var rest := MergeRuns(L[i..], R[j + 1..]);
    Associate(done, [R[j]], rest);
  }

  /** Writing v at the first position after the prefix extends it by v. */
  lemma WriteStep(p: seq<Particle>, left: int, done: seq<Particle>, out: seq<Particle>, v: Particle)
    requires 0 <= left && left + |done| < |p|
    requires out == p[..left] + done + p[left + |done|..]
    ensures out[left + |done| := v] == p[..left] + (done + [v]) + p[left + |done| + 1..]
  {
    var k := left + |done|;
    assert p[k..] == [p[k]] + p[k + 1..];
  }

  /** Copying the head of the left run keeps the state. */
  lemma TakeLeft(p: seq<Particle>, left: int, L: seq<Particle>, R: seq<Particle>,
                 i: int, j: int, done: seq<Particle>, out: seq<Particle>)
    requires MergeState(p, left, L, R, i, j, done, out)
    requires i < |L| && (j == |R| || L[i].id <= R[j].id)
    ensures MergeState(p, left, L, R, i + 1, j, done + [L[i]], out[left + i + j := L[i]])
  {
    RunsStepLeft(L, R, i, j, done);
    WriteStep(p, left, done, out, L[i]);
  }

  /** Copying the head of the right run keeps the state. */
  lemma TakeRight(p: seq<Particle>, left: int, L: seq<Particle>, R: seq<Particle>,
                  i: int, j: int, done: seq<Particle>, out: seq<Particle>)
    requires MergeState(p, left, L, R, i, j, done, out)
    requires j < |R| && (i == |L| || L[i].id > R[j].id)
    ensures MergeState(p, left, L, R, i, j + 1, done + [R[j]], out[left + i + j := R[j]])
  {
    RunsStepRight(L, R, i, j, done);
    WriteStep(p, left, done, out, R[j]);
  }

  /** Before the loops nothing is merged yet. */
  lemma MergeStateStart(p: seq<Particle>, left: int, middle: int, right: int, L: seq<Particle>, R: seq<Particle>)
    requires 0 <= left <= middle <= right < |p|
    requires L == p[left..middle + 1] && R == p[middle + 1..right + 1]
    ensures MergeState(p, left, L, R, 0, 0, [], p)
  {
    assert L[0..] == L && R[0..] == R;
    assert p == p[..left] + [] + p[left..];
  }

  /** When both runs are used up the state is the merge. */
  lemma MergeStateDone(p: seq<Particle>, left: int, middle: int, right: int,
                       L: seq<Particle>, R: seq<Particle>, done: seq<Particle>, out: seq<Particle>)
    requires 0 <= left <= middle <= right < |p|
    requires L == p[left..middle + 1] && R == p[middle + 1..right + 1]
    requires MergeState(p, left, L, R, |L|, |R|, done, out)
    ensures out == Merge(p, left, middle, right)
  {
    assert L[|L|..] == [] && R[|R|..] == [];
    assert done == MergeRuns(L, R);
  }

  /** The first loop of `merge`: while both runs have elements left, copy
      the smaller head, the left one on a tie. */
  method MergeWhileBoth(p: seq<Particle>, left: int, L: seq<Particle>, R: seq<Particle>)
    returns (out: seq<Particle>, i: int, j: int, ghost done: seq<Particle>)
    requires MergeState(p, left, L, R, 0, 0, [], p)
    ensures MergeState(p, left, L, R, i, j, done, out)
    ensures i == |L| || j == |R|
  {
    i, j, out, done := 0, 0, p, [];
    var k := left;
    while i < |L| && j < |R|
      invariant k == left + i + j
      invariant MergeState(p, left, L, R, i, j, done, out)
      decreases |L| + |R| - i - j
    {
      if L[i].id <= R[j].id {
        TakeLeft(p, left, L, R, i, j, done, out);
        out, done, i := out[k := L[i]], done + [L[i]], i + 1;
      } else {
        TakeRight(p, left, L, R, i, j, done, out);
        out, done, j := out[k := R[j]], done + [R[j]], j + 1;
      }
      k := k + 1;
    }
  }

  /** The second loop of `merge`: copy what is left of the left run. */
  method CopyLeftRest(p: seq<Particle>, left: int, L: seq<Particle>, R: seq<Particle>,
                      i0: int, j: int, ghost done0: seq<Particle>, out0: seq<Particle>)
    returns (out: seq<Particle>, i: int, ghost done: seq<Particle>)
    requires MergeState(p, left, L, R, i0, j, done0, out0)
    requires i0 == |L| || j == |R|
    ensures MergeState(p, left, L, R, i, j, done, out)
    ensures i == |L|
  {
    i, out, done := i0, out0, done0;
    var k := left + i + j;
    while i < |L|
      invariant k == left + i + j
      invariant MergeState(p, left, L, R, i, j, done, out)
      invariant i == |L| || j == |R|
      decreases |L| - i
    {
      TakeLeft(p, left, L, R, i, j, done, out);
      out, done, i := out[k := L[i]], done + [L[i]], i + 1;
      k := k + 1;
    }
  }

  /** The third loop of `merge`: copy what is left of the right run. */
  method CopyRightRest(p: seq<Particle>, left: int, L: seq<Particle>, R: seq<Particle>,
                       j0: int, ghost done0: seq<Particle>, out0: seq<Particle>)
    returns (out: seq<Particle>, j: int, ghost done: seq<Particle>)
    requires MergeState(p, left, L, R, |L|, j0, done0, out0)
    ensures MergeState(p, left, L, R, |L|, j, done, out)
    ensures j == |R|
  {
    j, out, done := j0, out0, done0;
    var k := left + |L| + j;
    while j < |R|
      invariant k == left + |L| + j
      invariant MergeState(p, left, L, R, |L|, j, done, out)
      decreases |R| - j
    {
      TakeRight(p, left, L, R, |L|, j, done, out);
      out, done, j := out[k := R[j]], done + [R[j]], j + 1;
      k := k + 1;
    }
  }

  /** `merge` as written: copy both runs into L and R, then run the three
      loops, each overwriting the next position from `left` on. */
  method MergeLoops(particles: seq<Particle>, left: int, middle: int, right: int) returns (out: seq<Particle>)
    requires 0 <= left <= middle <= right < |particles|
    ensures out == Merge(particles, left, middle, right)
  {
    var n1 := middle - left + 1;
    var n2 := right - middle;
    var L := particles[left..left + n1];
    var R := particles[middle + 1..middle + 1 + n2];
    MergeStateStart(particles, left, middle, right, L, R);
    var i, j;
    ghost var done;
    out, i, j, done := MergeWhileBoth(particles, left, L, R);
    out, i, done := CopyLeftRest(particles, left, L, R, i, j, done, out);
    out, j, done := CopyRightRest(particles, left, L, R, j, done, out);
    MergeStateDone(particles, left, middle, right, L, R, done, out);
  }

  /** The length of the first half of a segment of length n: the elements
      left..middle with middle = left + (right - left) / 2 and
      n = right - left + 1, i.e. n / 2 rounded up. It is defined by
      counting down in steps of two so that proofs about the recursion do
      not have to reason about integer division. */
  function FirstHalf(n: nat): (m: nat)
    ensures n >= 2 ==> 1 <= m < n
  {
    if n <= 1 then n else FirstHalf(n - 2) + 1
  }

  lemma {:induction false} FirstHalfDoubled(n: nat)
    ensures FirstHalf(n) + FirstHalf(n) == n || FirstHalf(n) + FirstHalf(n) == n + 1
  {
    if n > 1 {
      FirstHalfDoubled(n - 2);
    }
  }

  /** FirstHalf is the source's split: middle - left + 1. */
  lemma FirstHalfIsMiddle(left: int, middle: int, right: int)
    requires left < right && middle == left + (right - left) / 2
    ensures FirstHalf(right - left + 1) == middle - left + 1
  {
    FirstHalfDoubled(right - left + 1);
  }

  /** The recursion of `mergeSort` on the segment itself: a segment of
      length n >= 2 is split after its first (n - 1) / 2 + 1 elements (the
      source's middle - left + 1), both halves are sorted and then merged. */
  function SortRun(t: seq<Particle>): (r: seq<Particle>)
    ensures |r| == |t|
    decreases |t|
  {
    if |t| <= 1 then t
    else
      var m := FirstHalf(|t|);
      MergeRuns(SortRun(t[..m]), SortRun(t[m..]))
  }

  /** The two halves SortRun splits a run of length >= 2 into. */
  lemma Halves(t: seq<Particle>) returns (A: seq<Particle>, B: seq<Particle>)
    requires |t| > 1
    ensures t == A + B && 0 < |A| < |t| && 0 < |B| < |t|
    ensures SortRun(t) == MergeRuns(SortRun(A), SortRun(B))
  {
    var m := FirstHalf(|t|);
    A, B := t[..m], t[m..];
    assert t == A + B;
  }

  lemma {:induction false} SortRunSorted(t: seq<Particle>)
    ensures SortedById(SortRun(t))
    decreases |t|
  {
    if |t| > 1 {
      var A, B := Halves(t);
      SortRunSorted(A);
      SortRunSorted(B);
      MergeRunsSorted(SortRun(A), SortRun(B));
    }
  }

  /** Concatenation adds multisets. */
  lemma PermutesStep(t: seq<Particle>, A: seq<Particle>, B: seq<Particle>, r: seq<Particle>, a: seq<Particle>, b: seq<Particle>)
    requires t == A + B && r == MergeRuns(a, b)
    requires multiset(a) == multiset(A) && multiset(b) == multiset(B)
    ensures multiset(r) == multiset(t)
  {
    MergeRunsPermutes(a, b);
  }

  lemma {:induction false} SortRunPermutes(t: seq<Particle>)
    ensures multiset(SortRun(t)) == multiset(t)
    decreases |t|
  {
    if |t| > 1 {
      var A, B := Halves(t);
      SortRunPermutes(A);
      SortRunPermutes(B);
      PermutesStep(t, A, B, SortRun(t), SortRun(A), SortRun(B));
    }
  }

  /** Concatenation concatenates the per-id subsequences. */
  lemma StableStep(t: seq<Particle>, A: seq<Particle>, B: seq<Particle>, r: seq<Particle>, a: seq<Particle>, b: seq<Particle>, x: int)
    requires t == A + B && r == MergeRuns(a, b) && SortedById(a)
    requires WithId(a, x) == WithId(A, x) && WithId(b, x) == WithId(B, x)
    ensures WithId(r, x) == WithId(t, x)
  {
    MergeRunsStable(a, b, x);
    WithIdAppend(A, B, x);
  }

  lemma {:induction false} SortRunStable(t: seq<Particle>, x: int)
    ensures WithId(SortRun(t), x) == WithId(t, x)
    decreases |t|
  {
    if |t| > 1 {
      var A, B := Halves(t);
      SortRunStable(A, x);
      SortRunStable(B, x);
      SortRunSorted(A);
      StableStep(t, A, B, SortRun(t), SortRun(A), SortRun(B), x);
    }
  }

  /** `mergeSort(particles, left, right)`: a no-op unless left < right;
      otherwise the segment [left..right] is replaced by its sorted run. */
  function MergeSort(s: seq<Particle>, left: int, right: int): (r: seq<Particle>)
    requires left >= right || (0 <= left && right < |s|)
    ensures |r| == |s|
    ensures left >= right ==> r == s
  {
    if left < right then s[..left] + SortRun(s[left..right + 1]) + s[right + 1..] else s
  }

  /** For any non-empty segment, including one of length 1 where the call
      does nothing, the result is the segment's sorted run in place. */
  lemma MergeSortSplice(s: seq<Particle>, left: int, right: int)
    requires 0 <= left <= right < |s|
    ensures MergeSort(s, left, right) == s[..left] + SortRun(s[left..right + 1]) + s[right + 1..]
  {
    if left == right {
      SpliceWhole(s, left, right + 1);
    }
  }

  /** Sorting the whole of a non-empty sequence yields its sorted run. */
  lemma MergeSortWhole(s: seq<Particle>, right: int)
    requires |s| >= 1 && right == |s| - 1
    ensures MergeSort(s, 0, right) == SortRun(s)
  {
    MergeSortSplice(s, 0, right);
    SpliceParts([], s, []);
    assert s[..0] == [] && s[0..right + 1] == s && s[right + 1..] == [];
  }

  /** `mergeSort` sorts the segment [left..right] by id, as a permutation of
      what was there, and leaves the rest of the sequence untouched. */
  lemma MergeSortSorts(s: seq<Particle>, left: int, right: int)
    requires 0 <= left <= right < |s|
    ensures MergeSort(s, left, right)[..left] == s[..left]
    ensures MergeSort(s, left, right)[right + 1..] == s[right + 1..]
    ensures SortedById(MergeSort(s, left, right)[left..right + 1])
    ensures multiset(MergeSort(s, left, right)[left..right + 1]) == multiset(s[left..right + 1])
  {
    var t := s[left..right + 1];
    MergeSortSplice(s, left, right);
    SpliceParts(s[..left], SortRun(t), s[right + 1..]);
    SortRunSorted(t);
    SortRunPermutes(t);
  }

  /** The sort is stable: for every id, the particles carrying it keep their
      relative order within [left..right]. */
  lemma MergeSortStable(s: seq<Particle>, left: int, right: int, x: int)
    requires 0 <= left <= right < |s|
    ensures WithId(MergeSort(s, left, right)[left..right + 1], x) == WithId(s[left..right + 1], x)
  {
    var t := s[left..right + 1];
    MergeSortSplice(s, left, right);
    SpliceParts(s[..left], SortRun(t), s[right + 1..]);
    SortRunStable(t, x);
  }

  /** Sorting the middle part of s = x + y + z sorts exactly y. */
  lemma MergeSortOnPart(s: seq<Particle>, x: seq<Particle>, y: seq<Particle>, z: seq<Particle>, lo: int, hi: int)
    requires s == x + y + z && |y| >= 1 && lo == |x| && hi == |x| + |y| - 1
    ensures MergeSort(s, lo, hi) == x + SortRun(y) + z
  {
    MergeSortSplice(s, lo, hi);
    SpliceParts(x, y, z);
  }

  /** Merging the two middle parts of s = w + a + b + z merges exactly a
      and b. */
  lemma MergeOnParts(s: seq<Particle>, w: seq<Particle>, a: seq<Particle>, b: seq<Particle>, z: seq<Particle>,
                     left: int, middle: int, right: int)
    requires s == w + a + b + z && |a| >= 1 && |b| >= 1
    requires left == |w| && middle == |w| + |a| - 1 && right == |w| + |a| + |b| - 1
    ensures Merge(s, left, middle, right) == w + MergeRuns(a, b) + z
  {
    assert s[..left] == w;
    assert s[left..middle + 1] == a;
    assert s[middle + 1..right + 1] == b;
    assert s[right + 1..] == z;
  }

  /** A sequence cut at left, middle + 1 and right + 1. */
  lemma SplitFour(s: seq<Particle>, left: int, middle: int, right: int)
    returns (pre: seq<Particle>, A: seq<Particle>, B: seq<Particle>, post: seq<Particle>)
    requires 0 <= left <= middle < right < |s|
    ensures s == pre + A + B + post
    ensures |pre| == left && |A| == middle + 1 - left && |B| == right - middle
  {
    pre, A, B, post := s[..left], s[left..middle + 1], s[middle + 1..right + 1], s[right + 1..];
    assert s == pre + A + B + post;
  }

  /** The two recursive calls, on a sequence given by its four parts,
      sort the two middle parts in place. */
  lemma CallsOnParts(s: seq<Particle>, pre: seq<Particle>, A: seq<Particle>, B: seq<Particle>, post: seq<Particle>,
                     left: int, middle: int, right: int)
    requires s == pre + A + B + post && |A| >= 1 && |B| >= 1
    requires left == |pre| && middle == |pre| + |A| - 1 && right == |pre| + |A| + |B| - 1
    ensures MergeSort(MergeSort(s, left, middle), middle + 1, right) == pre + SortRun(A) + SortRun(B) + post
  {
    var a := SortRun(A);
    Associate(pre + A, B, post);
    MergeSortOnPart(s, pre, A, B + post, left, middle);
    var s1 := MergeSort(s, left, middle);
    assert s1 == pre + a + (B + post);
    Associate(pre + a, B, post);
    var pa := pre + a;
    assert s1 == pa + B + post && |pa| == middle + 1;
    MergeSortOnPart(s1, pa, B, post, middle + 1, right);
  }

  /** Merging after the two calls merges the two sorted middle parts. */
  lemma MergeAfterCalls(s: seq<Particle>, pre: seq<Particle>, A: seq<Particle>, B: seq<Particle>, post: seq<Particle>,
                        left: int, middle: int, right: int)
    requires s == pre + A + B + post && |A| >= 1 && |B| >= 1
    requires left == |pre| && middle == |pre| + |A| - 1 && right == |pre| + |A| + |B| - 1
    ensures Merge(MergeSort(MergeSort(s, left, middle), middle + 1, right), left, middle, right) ==
      pre + MergeRuns(SortRun(A), SortRun(B)) + post
  {
    var a, b := SortRun(A), SortRun(B);
    CallsOnParts(s, pre, A, B, post, left, middle, right);
    MergeOnParts(MergeSort(MergeSort(s, left, middle), middle + 1, right), pre, a, b, post, left, middle, right);
  }

  /** Sorting the whole middle A + B at once. */
  lemma SortWhole(s: seq<Particle>, pre: seq<Particle>, A: seq<Particle>, B: seq<Particle>, post: seq<Particle>,
                  left: int, right: int)
    requires s == pre + A + B + post && |A| >= 1 && |B| >= 1
    requires left == |pre| && right == |pre| + |A| + |B| - 1
    ensures MergeSort(s, left, right) == pre + SortRun(A + B) + post
  {
    Associate(pre, A, B);
    MergeSortOnPart(s, pre, A + B, post, left, right);
  }

  /** The recursion, stated on a sequence given by its four parts. */
  lemma RecursionOnParts(s: seq<Particle>, pre: seq<Particle>, A: seq<Particle>, B: seq<Particle>, post: seq<Particle>,
                         left: int, middle: int, right: int)
    requires s == pre + A + B + post
    requires |A| >= 1 && |B| >= 1 && |A| == FirstHalf(|A| + |B|)
    requires left == |pre| && middle == |pre| + |A| - 1 && right == |pre| + |A| + |B| - 1
    ensures MergeSort(s, left, right) == Merge(MergeSort(MergeSort(s, left, middle), middle + 1, right), left, middle, right)
  {
    MergeAfterCalls(s, pre, A, B, post, left, middle, right);
    SortWhole(s, pre, A, B, post, left, right);
    SortRunOfHalves(A, B);
  }

  /** The model of `mergeSort` satisfies the source's recursion: sort
      [left..middle], then [middle+1..right], then merge the two runs. */
  lemma MergeSortRecursion(s: seq<Particle>, left: int, middle: int, right: int)
    requires 0 <= left < right < |s| && middle == left + (right - left) / 2
    ensures MergeSort(s, left, right) == Merge(MergeSort(MergeSort(s, left, middle), middle + 1, right), left, middle, right)
  {
    var pre, A, B, post := SplitFour(s, left, middle, right);
    FirstHalfIsMiddle(left, middle, right);
    RecursionOnParts(s, pre, A, B, post, left, middle, right);
  }

  /** Sorting a run whose first part is exactly as long as the split point
      merges the sorted parts. */
  lemma SortRunOfHalves(A: seq<Particle>, B: seq<Particle>)
    requires |A| >= 1 && |B| >= 1 && |A| == FirstHalf(|A| + |B|)
    ensures SortRun(A + B) == MergeRuns(SortRun(A), SortRun(B))
  {
    var t := A + B;
    assert t[..|A|] == A && t[|A|..] == B;
    SortRunSplit(t, |A|);
  }

  /** One unfolding of SortRun. */
  lemma SortRunSplit(t: seq<Particle>, m: int)
    requires |t| > 1 && m == FirstHalf(|t|)
    ensures SortRun(t) == MergeRuns(SortRun(t[..m]), SortRun(t[m..]))
  {
  }
}
