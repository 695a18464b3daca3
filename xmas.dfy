/** The port cipher (src/bin/2020-09.rs): a number is valid when two of the
    `previous_count` numbers right before it, at different positions, add up to it. The
    weakness is a contiguous run of at least two numbers adding up to the first invalid
    number, and its answer is the run's smallest plus its largest number. The numbers are
    `i64` in the source and unbounded here. */
module Xmas {
  import opened Wrappers

  /** Two entries of `window` at different positions add up to `x`. */
  ghost predicate PairSum(window: seq<int>, x: int)
  {
    exists i1, i2 :: 0 <= i1 < |window| && 0 <= i2 < |window| && i1 != i2 && window[i1] + window[i2] == x
  }

  /** The number at `i` is the sum of two of the `n` numbers right before it. */
  ghost predicate Valid(lines: seq<int>, n: nat, i: nat)
    requires n <= i < |lines|
  {
    PairSum(lines[i - n..i], lines[i])
  }

  /** The number at `i` is the first one after the first `n` that is not valid. */
  ghost predicate FirstInvalid(lines: seq<int>, n: nat, i: nat)
  {
    n <= i < |lines| && !Valid(lines, n, i) && forall j :: n <= j < i ==> Valid(lines, n, j)
  }

  /** The combination search of `find_first_invalid`: every pair of positions of the window,
      skipping a position paired with itself, until one pair adds up to `line`. */
  method HasPairSum(previous: seq<int>, line: int) returns (hasSum: bool)
    ensures hasSum <==> PairSum(previous, line)
  {
    hasSum := false;
    for i1 := 0 to |previous|
      invariant forall a, b :: 0 <= a < i1 && 0 <= b < |previous| && a != b ==> previous[a] + previous[b] != line
    {
      for i2 := 0 to |previous|
        invariant forall b :: 0 <= b < i2 && b != i1 ==> previous[i1] + previous[b] != line
      {
        if i1 == i2 {
          continue;
        }
        if previous[i1] + previous[i2] == line {
          hasSum := true;
          return;
        }
      }
    }
  }

  function Floor(x: int): nat
  {
    if x < 0 then 0 else x
  }

  /** `find_first_invalid`: the first number, after the first `previous_count`, that is not
      the sum of two of the `previous_count` numbers right before it; none (the source
      panics) when every such number is valid. The window is kept as the source keeps it,
      trimmed from the front before each number and extended behind it after. */
  method FindFirstInvalid(lines: seq<int>, previousCount: nat) returns (r: Option<int>)
    ensures r.None? <==> forall i :: previousCount <= i < |lines| ==> Valid(lines, previousCount, i)
    ensures r.Some? ==> exists i: nat :: FirstInvalid(lines, previousCount, i) && r.value == lines[i]
  {
    var previous: seq<int> := [];
    for i := 0 to |lines|
      invariant previous == lines[Floor(i - previousCount - 1)..i]
      invariant forall j :: previousCount <= j < i ==> Valid(lines, previousCount, j)
    {
      var line := lines[i];
      ghost var start: int := Floor(i - previousCount - 1);
      while |previous| > previousCount
        invariant 0 <= start <= i && (i >= previousCount ==> start <= i - previousCount)
        invariant i < previousCount ==> start == 0
        invariant previous == lines[start..i]
        decreases |previous|
      {
        previous := previous[1..];
        start := start + 1;
      }
      assert |previous| == i - start;
      assert start == Floor(i - previousCount);
      if |previous| >= previousCount {
        assert previous == lines[i - previousCount..i];
        var hasSum := HasPairSum(previous, line);
        if !hasSum {
          assert FirstInvalid(lines, previousCount, i);
          return Some(line);
        }
      }
      previous := previous + [line];
    }
    return None;
  }

  // find_any_that_sum

  /** `Iterator::sum`. */
  function Sum(s: seq<int>): int
  {
    if s == [] then 0 else Sum(s[..|s| - 1]) + s[|s| - 1]
  }

  /** The `len` numbers from `start` add up to `target` and end by position `end`. */
  ghost predicate Run(lines: seq<int>, target: int, start: int, len: int, end: int)
  {
    2 <= len && 0 <= start && start + len <= end <= |lines| && Sum(lines[start..start + len]) == target
  }

  /** Some run ending by `end` adds up to `target`. */
  ghost predicate HasRun(lines: seq<int>, target: int, end: int)
  {
    exists start, len :: Run(lines, target, start, len, end)
  }

  /** The run from `start` of length `len` is the shortest, and of those the leftmost, that
      adds up to `target` and ends by `end`. */
  ghost predicate ShortestRun(lines: seq<int>, target: int, start: int, len: int, end: int)
  {
    Run(lines, target, start, len, end)
      && (forall s, l :: 2 <= l < len ==> !Run(lines, target, s, l, end))
      && (forall s :: s < start ==> !Run(lines, target, s, len, end))
  }

  /** There is only one shortest leftmost run. */
  lemma ShortestRunUnique(lines: seq<int>, target: int, s1: int, l1: int, s2: int, l2: int, end: int)
    requires ShortestRun(lines, target, s1, l1, end) && ShortestRun(lines, target, s2, l2, end)
    ensures s1 == s2 && l1 == l2
  {
  }

  /** The shortest leftmost run that stops before the last number. */
  ghost predicate ShortestRunBeforeLast(lines: seq<int>, target: int, start: int, len: int)
  {
    ShortestRun(lines, target, start, len, |lines| - 1)
  }

  /** `find_any_that_sum` as written: lengths from 2 upwards, and for each length the runs
      ending at `pos` for `pos` in `nums..lines.len()`, so no run checked reaches the last
      number. It loops forever when no such run exists. */
  method FindAnyThatSum(lines: seq<int>, target: int) returns (check: seq<int>)
    requires HasRun(lines, target, |lines| - 1)
    ensures exists start :: ShortestRunBeforeLast(lines, target, start, |check|) && check == lines[start..start + |check|]
  {
    ghost var end := |lines| - 1;
    var nums := 2;
    while true
      invariant 2 <= nums < |lines|
      invariant forall s, l :: 2 <= l < nums ==> !Run(lines, target, s, l, end)
      decreases |lines| - nums
    {
      for pos := nums to |lines|
        invariant forall s :: s < pos - nums ==> !Run(lines, target, s, nums, end)
      {
        var slice := lines[pos - nums..pos];
        if Sum(slice) == target {
          assert ShortestRunBeforeLast(lines, target, pos - nums, |slice|);
          return slice;
        }
      }
      assert forall s :: !Run(lines, target, s, nums, end);
      nums := nums + 1;
      ghost var s, l :| Run(lines, target, s, l, end);
      assert nums <= l;
    }
  }

  /** The search as evidently intended, with `pos` in `nums..=lines.len()`: the shortest
      leftmost run anywhere in the numbers. */
  method FindRunThatSums(lines: seq<int>, target: int) returns (check: seq<int>)
    requires HasRun(lines, target, |lines|)
    ensures exists start :: ShortestRun(lines, target, start, |check|, |lines|) && check == lines[start..start + |check|]
  {
    var nums := 2;
    while true
      invariant 2 <= nums <= |lines|
      invariant forall s, l :: 2 <= l < nums ==> !Run(lines, target, s, l, |lines|)
      decreases |lines| - nums
    {
      for pos := nums to |lines| + 1
        invariant forall s :: s < pos - nums ==> !Run(lines, target, s, nums, |lines|)
      {
        var slice := lines[pos - nums..pos];
        if Sum(slice) == target {
          assert ShortestRun(lines, target, pos - nums, nums, |lines|);
          return slice;
        }
      }
      assert forall s :: !Run(lines, target, s, nums, |lines|);
      nums := nums + 1;
      ghost var s, l :| Run(lines, target, s, l, |lines|);
      assert nums <= l;
    }
  }

  /** The as-written search never sees a run that ends with the last number: on [1, 2] with
      target 3 the only run is the whole list, so `find_any_that_sum` loops forever, while
      the intended search returns [1, 2]. */
  lemma LastNumberMissed(lines: seq<int>)
    requires lines == [1, 2]
    ensures !HasRun(lines, 3, |lines| - 1) && Run(lines, 3, 0, 2, |lines|)
  {
    assert lines[0..2] == [1, 2];
    assert Sum([1]) == 1;
  }

  // sum_min_max

  /** `Iterator::min`. */
  function Min(s: seq<int>): (m: int)
    requires |s| >= 1
    ensures m in s && forall x :: x in s ==> m <= x
  {
    if |s| == 1 then s[0]
    else
      var rest := Min(s[..|s| - 1]);
      assert s == s[..|s| - 1] + [s[|s| - 1]];
      if s[|s| - 1] < rest then s[|s| - 1] else rest
  }

  /** `Iterator::max`. */
  function Max(s: seq<int>): (m: int)
    requires |s| >= 1
    ensures m in s && forall x :: x in s ==> x <= m
  {
    if |s| == 1 then s[0]
    else
      var rest := Max(s[..|s| - 1]);
      assert s == s[..|s| - 1] + [s[|s| - 1]];
      if s[|s| - 1] > rest then s[|s| - 1] else rest
  }

  /** `sum_min_max`: the smallest plus the largest number; the source panics on an empty
      slice. */
  function SumMinMax(numbers: seq<int>): (r: int)
    requires |numbers| >= 1
    ensures exists lo, hi :: (lo in numbers && hi in numbers && r == lo + hi
      && forall x :: x in numbers ==> lo <= x <= hi)
  {
    var lo, hi := Min(numbers), Max(numbers);
    assert lo in numbers && hi in numbers;
    lo + hi
  }

  // The unit tests

  /** The numbers of the unit tests. */
  function SampleNumbers(): seq<int>
  {
    [35, 20, 15, 25, 47, 40, 62, 55, 65, 95, 102, 117, 150, 182, 127, 219, 299, 277, 309, 576]
  }

  lemma Witness(window: seq<int>, x: int, a: nat, b: nat)
    requires a < |window| && b < |window| && a != b && window[a] + window[b] == x
    ensures PairSum(window, x)
  {
  }

  /** Each number from position 5 to 13 is the sum of two of the five before it. */
  lemma SampleValid(lines: seq<int>, i: nat)
    requires lines == SampleNumbers() && 5 <= i < 14
    ensures Valid(lines, 5, i)
  {
    if i == 5 { Witness(lines[0..5], lines[5], 2, 3); }
    else if i == 6 { Witness(lines[1..6], lines[6], 1, 3); }
    else if i == 7 { Witness(lines[2..7], lines[7], 0, 3); }
    else if i == 8 { Witness(lines[3..8], lines[8], 0, 2); }
    else if i == 9 { Witness(lines[4..9], lines[9], 1, 3); }
    else if i == 10 { Witness(lines[5..10], lines[10], 0, 1); }
    else if i == 11 { Witness(lines[6..11], lines[11], 0, 1); }
    else if i == 12 { Witness(lines[7..12], lines[12], 0, 2); }
    else { Witness(lines[8..13], lines[13], 0, 3); }
  }

  /** 127 is not the sum of two of 95, 102, 117, 150 and 182. */
  lemma SampleInvalid(lines: seq<int>)
    requires lines == SampleNumbers()
    ensures !Valid(lines, 5, 14)
  {
    var w := lines[9..14];
    assert forall k :: 0 <= k < |w| ==> w[k] >= 95;
  }

  /** The unit test of `find_first_invalid`: 127. */
  method FirstInvalidExample()
  {
    var lines := SampleNumbers();
    forall i | 5 <= i < 14
      ensures Valid(lines, 5, i)
    {
      SampleValid(lines, i);
    }
    SampleInvalid(lines);
    var r := FindFirstInvalid(lines, 5);
    assert r.Some?;
    ghost var i: nat :| FirstInvalid(lines, 5, i) && r.value == lines[i];
    assert i == 14;
    assert r == Some(127);
  }

  /** The sum of a short run, spelled out. */
  lemma SumShort(w: seq<int>)
    requires 2 <= |w| <= 4
    ensures |w| == 2 ==> Sum(w) == w[0] + w[1]
    ensures |w| == 3 ==> Sum(w) == w[0] + w[1] + w[2]
    ensures |w| == 4 ==> Sum(w) == w[0] + w[1] + w[2] + w[3]
  {
    assert w[..|w| - 1][..|w| - 2] == w[..|w| - 2];
    if |w| == 4 {
      assert w[..2][..1] == w[..1];
      assert w[..3][..2] == w[..2];
    }
    if |w| >= 3 {
      assert w[..|w| - 2][..1] == w[..1];
    }
    assert w[..1][..0] == [];
  }

  /** No two neighbours of the sample, other than the last number, add up to 127. */
  lemma SamplePairs(lines: seq<int>, s: int)
    requires lines == SampleNumbers() && 0 <= s && s + 2 <= |lines| - 1
    ensures !Run(lines, 127, s, 2, |lines| - 1)
  {
    SumShort(lines[s..s + 2]);
    assert s == 0 || s == 1 || s == 2 || s == 3 || s == 4 || s == 5 || s == 6 || s == 7 || s == 8 || s == 9 || s == 10 || s == 11 || s == 12 || s == 13 || s == 14 || s == 15 || s == 16 || s == 17;
  }

  /** No three neighbours of the sample, other than the last number, add up to 127. */
  lemma SampleTriples(lines: seq<int>, s: int)
    requires lines == SampleNumbers() && 0 <= s && s + 3 <= |lines| - 1
    ensures !Run(lines, 127, s, 3, |lines| - 1)
  {
    SumShort(lines[s..s + 3]);
    assert s == 0 || s == 1 || s == 2 || s == 3 || s == 4 || s == 5 || s == 6 || s == 7 || s == 8 || s == 9 || s == 10 || s == 11 || s == 12 || s == 13 || s == 14 || s == 15 || s == 16;
  }

  /** 15, 25, 47 and 40 are the shortest leftmost run of the sample adding up to 127. */
  lemma SampleShortest(lines: seq<int>)
    requires lines == SampleNumbers()
    ensures ShortestRunBeforeLast(lines, 127, 2, 4)
  {
    var end := |lines| - 1;
    SumShort(lines[2..6]);
    assert Run(lines, 127, 2, 4, |lines| - 1);
    forall s, l | 2 <= l < 4
      ensures !Run(lines, 127, s, l, end)
    {
      if 0 <= s && s + l <= |lines| - 1 {
        if l == 2 {
          SamplePairs(lines, s);
        } else {
          SampleTriples(lines, s);
        }
      }
    }
    forall s | s < 2
      ensures !Run(lines, 127, s, 4, end)
    {
      if 0 <= s {
        SumShort(lines[s..s + 4]);
      }
    }
  }

  /** The unit test of `find_any_that_sum`: [15, 25, 47, 40]. */
  method AnyThatSumExample()
  {
    var lines := SampleNumbers();
    SampleShortest(lines);
    var check := FindAnyThatSum(lines, 127);
    ghost var start :| ShortestRunBeforeLast(lines, 127, start, |check|) && check == lines[start..start + |check|];
    ShortestRunUnique(lines, 127, start, |check|, 2, 4, |lines| - 1);
    assert check == [15, 25, 47, 40];
  }

  /** The unit test of `sum_min_max`. */
  lemma SumMinMaxExample()
    ensures SumMinMax([1, 2, 3]) == 4
  {
    var s := [1, 2, 3];
    assert Min(s) == 1 by {
      assert Min(s) in s && Min(s) <= s[0];
    }
    assert Max(s) == 3 by {
      assert Max(s) in s && Max(s) >= s[2];
    }
  }
}
