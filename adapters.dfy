/** The adapter-chain counter (src/bin/2020-10.rs): normalise the joltage ratings, count the
    consecutive steps by size, and count the chains from the outlet to the device with
    a memoised recursion. Ratings are `usize`, modelled as `nat`; counts are unbounded. */
module Adapters {
  import opened Sorting

  /** `fix_input`: sort the ratings in place, insert the outlet's 0 at the front and push the
      device's rating, 3 above the last one. An empty input becomes [0, 3]. */
  method FixInput(jolts: seq<nat>) returns (fixed: seq<nat>)
    ensures |fixed| == |jolts| + 2
    ensures fixed[0] == 0 && fixed[|fixed| - 1] == fixed[|fixed| - 2] + 3
    ensures multiset(fixed[1..|fixed| - 1]) == multiset(jolts)
    ensures Sorted(fixed)
  {
    var sorted := Sort(jolts);
    forall i | 0 <= i < |sorted| ensures sorted[i] >= 0 {
      assert sorted[i] in multiset(jolts);
    }
    var v: seq<nat> := sorted;
    SortedCons(0, v);
    v := [0] + v;
    SortedSnoc(v, v[|v| - 1] + 3);
    v := v + [v[|v| - 1] + 3];
    fixed := v;
    assert fixed[1..|fixed| - 1] == sorted;
  }

  /** The difference between adapter `i + 1` and adapter `i`. */
  function Gap(jolts: seq<nat>, i: nat): int
    requires i + 1 < |jolts|
  {
    (jolts[i + 1] as int) - jolts[i]
  }

  /** How many of the first `k` consecutive differences of `jolts` equal `d`. */
  function StepCount(jolts: seq<nat>, d: int, k: nat): nat
    requires k < |jolts|
  {
    if k == 0 then 0
    else StepCount(jolts, d, k - 1) + (if Gap(jolts, k - 1) == d then 1 else 0)
  }

  /** The sum of all counts held in a histogram, independent of key order. */
  ghost function SumValues(m: map<nat, nat>): nat
    decreases |m|
  {
    if m == map[] then 0
    else
      var k :| k in m;
      m[k] + SumValues(m - {k})
  }

  /** SumValues may take out any key first. */
  lemma {:induction false} SumValuesRemove(m: map<nat, nat>, k: nat)
    requires k in m
    ensures SumValues(m) == m[k] + SumValues(m - {k})
    decreases |m|
  {
    var k' :| k' in m && SumValues(m) == m[k'] + SumValues(m - {k'});
    if k' != k {
      assert |m - {k'}| < |m| && |m - {k}| < |m| by {
        assert m.Keys - {k'} < m.Keys && m.Keys - {k} < m.Keys;
      }
      SumValuesRemove(m - {k'}, k);
      SumValuesRemove(m - {k}, k');
      assert (m - {k'}) - {k} == (m - {k}) - {k'};
    }
  }

  /** Bumping one counter of a histogram raises its total by one. */
  lemma SumValuesBump(m: map<nat, nat>, d: nat)
    ensures SumValues(m[d := (if d in m then m[d] else 0) + 1]) == SumValues(m) + 1
  {
    var m' := m[d := (if d in m then m[d] else 0) + 1];
    SumValuesRemove(m', d);
    assert m' - {d} == m - {d};
    if d in m {
      SumValuesRemove(m, d);
    } else {
      assert m - {d} == m;
    }
  }

  /** A step of size `d` occurs among the first `k` differences exactly when it is counted. */
  lemma {:induction false} StepCountOccurs(jolts: seq<nat>, d: int, k: nat)
    requires k < |jolts|
    ensures StepCount(jolts, d, k) > 0 <==> exists i :: 0 <= i < k && Gap(jolts, i) == d
  {
    if k > 0 {
      StepCountOccurs(jolts, d, k - 1);
      if Gap(jolts, k - 1) == d {
        assert 0 <= k - 1 < k && Gap(jolts, k - 1) == d;
      }
    }
  }

  /** `count_steps`: a histogram of the consecutive differences of an ascending sequence.
      Its keys are exactly the differences that occur, each value is how often it occurs,
      and the values add up to the number of differences. */
  method CountSteps(jolts: seq<nat>) returns (counts: map<nat, nat>)
    requires |jolts| >= 1
    requires Sorted(jolts)
    ensures forall d :: d in counts <==> exists i :: 0 <= i < |jolts| - 1 && Gap(jolts, i) == d
    ensures forall d :: d in counts ==> counts[d] == StepCount(jolts, d, |jolts| - 1)
    ensures SumValues(counts) == |jolts| - 1
  {
    counts := map[];
    for index := 0 to |jolts| - 1
      invariant Tallied(jolts, counts, index)
      invariant SumValues(counts) == index
    {
      assert jolts[index] <= jolts[index + 1];
      var diff: nat := jolts[index + 1] - jolts[index];
      SumValuesBump(counts, diff);
      CountedStep(jolts, counts, index, diff);
      counts := counts[diff := (if diff in counts then counts[diff] else 0) + 1];
    }
    forall d ensures d in counts <==> exists i :: 0 <= i < |jolts| - 1 && Gap(jolts, i) == d {
      assert d in counts ==> counts[d] == StepCount(jolts, d, |jolts| - 1) > 0;
      StepCountOccurs(jolts, d, |jolts| - 1);
      if d < 0 {
        assert StepCount(jolts, d, |jolts| - 1) == 0 by {
          NegativeStepNeverCounted(jolts, d, |jolts| - 1);
        }
      }
    }
  }

  /** `counts` holds, for every difference among the first `k`, how often it occurs, and
      no other key. */
  ghost predicate Tallied(jolts: seq<nat>, counts: map<nat, nat>, k: nat)
    requires k < |jolts|
  {
    (forall d :: d in counts ==> counts[d] == StepCount(jolts, d, k) > 0) &&
    (forall d :: d !in counts ==> StepCount(jolts, d, k) == 0)
  }

  /** Counting one more difference bumps its counter and leaves the others as they were. */
  lemma CountedStep(jolts: seq<nat>, counts: map<nat, nat>, index: nat, diff: nat)
    requires index + 1 < |jolts| && diff == Gap(jolts, index)
    requires Tallied(jolts, counts, index)
    ensures Tallied(jolts, counts[diff := (if diff in counts then counts[diff] else 0) + 1], index + 1)
  {
    forall d ensures StepCount(jolts, d, index + 1) == StepCount(jolts, d, index) + (if d == diff then 1 else 0) {
    }
  }

  lemma {:induction false} NegativeStepNeverCounted(jolts: seq<nat>, d: int, k: nat)
    requires k < |jolts| && Sorted(jolts) && d < 0
    ensures StepCount(jolts, d, k) == 0
  {
    if k > 0 {
      assert jolts[k - 1] <= jolts[k];
      NegativeStepNeverCounted(jolts, d, k - 1);
    }
  }

  /** The reference count of chains from adapter `pos` to the last adapter: every later
      adapter at most 3 jolts above may come next. No early exit, no memo. A position past
      the end has no chains. */
  function Paths(jolts: seq<nat>, pos: nat): nat
    requires |jolts| >= 1
    decreases |jolts| - pos, |jolts| + 1
  {
    if pos == |jolts| - 1 then 1
    else if pos >= |jolts| then 0
    else PathsVia(jolts, pos, pos + 1)
  }

  /** The chains from `pos` whose next adapter is at `from` or later. */
  function PathsVia(jolts: seq<nat>, pos: nat, from: nat): nat
    requires |jolts| >= 1
    requires pos < from
    decreases |jolts| - pos, |jolts| - from
  {
    if from >= |jolts| || pos >= |jolts| then 0
    else (if (jolts[from] as int) - jolts[pos] <= 3 then Paths(jolts, from) else 0) + PathsVia(jolts, pos, from + 1)
  }

  /** On ascending ratings, once an adapter is more than 3 jolts above `pos`, no later one
      can follow `pos` either: the early `break` loses no chain. */
  lemma {:induction false} BreakIsSafe(jolts: seq<nat>, pos: nat, from: nat)
    requires |jolts| >= 1 && Sorted(jolts)
    requires pos < from < |jolts| && (jolts[from] as int) - jolts[pos] > 3
    ensures PathsVia(jolts, pos, from) == 0
    decreases |jolts| - from
  {
    if from + 1 < |jolts| {
      BreakIsSafe(jolts, pos, from + 1);
    }
  }

  /** Every memo entry holds the reference count for its position. */
  ghost predicate MemoSound(jolts: seq<nat>, memo: map<nat, nat>)
    requires |jolts| >= 1
  {
    forall p :: p in memo ==> memo[p] == Paths(jolts, p)
  }

  /** `count_paths`: the memoised count. With a sound memo on entry, the result is the
      reference count, the memo stays sound, and no entry already present changes. */
  method CountPaths(jolts: seq<nat>, pos: nat, memo: map<nat, nat>) returns (paths: nat, memo': map<nat, nat>)
    requires |jolts| >= 1
    requires Sorted(jolts)
    requires MemoSound(jolts, memo)
    ensures paths == Paths(jolts, pos)
    ensures MemoSound(jolts, memo')
    ensures forall p :: p in memo ==> p in memo' && memo'[p] == memo[p]
    decreases |jolts| - pos
  {
    if pos == |jolts| - 1 {
      return 1, memo;
    }
    if pos in memo {
      return memo[pos], memo;
    }
    paths, memo' := 0, memo;
    var index := pos + 1;
    while index < |jolts|
      invariant pos < index
      invariant pos < |jolts| ==> index <= |jolts|
      invariant paths + PathsVia(jolts, pos, index) == Paths(jolts, pos)
      invariant MemoSound(jolts, memo')
      invariant forall p :: p in memo ==> p in memo' && memo'[p] == memo[p]
      decreases |jolts| - index
    {
      var diff := jolts[index] - jolts[pos];
      if diff > 3 {
        BreakIsSafe(jolts, pos, index);
        break;
      }
      var p;
      p, memo' := CountPaths(jolts, index, memo');
      paths := paths + p;
      index := index + 1;
    }
    memo' := memo'[pos := paths];
  }

  /** The device's own position has exactly one chain, the empty continuation. */
  lemma PathsAtEnd(jolts: seq<nat>)
    requires |jolts| >= 1
    ensures Paths(jolts, |jolts| - 1) == 1
  {
  }

  /** When every step is exactly 3 jolts, nothing can be skipped: one chain only. */
  lemma {:induction false} PathsAllGapsThree(jolts: seq<nat>, pos: nat)
    requires |jolts| >= 1 && pos < |jolts|
    requires forall i :: 0 <= i < |jolts| - 1 ==> jolts[i + 1] == jolts[i] + 3
    ensures Paths(jolts, pos) == 1
    decreases |jolts| - pos
  {
    if pos < |jolts| - 1 {
      GapsThreeSorted(jolts);
      PathsAllGapsThree(jolts, pos + 1);
      assert jolts[pos + 1] == jolts[pos] + 3;
      if pos + 2 < |jolts| {
        assert jolts[pos + 2] == jolts[pos] + 6;
        BreakIsSafe(jolts, pos, pos + 2);
      }
      assert PathsVia(jolts, pos, pos + 2) == 0;
      assert Paths(jolts, pos) == Paths(jolts, pos + 1) + PathsVia(jolts, pos, pos + 2);
    }
  }

  lemma {:induction false} GapsThreeSorted(jolts: seq<nat>)
    requires forall i :: 0 <= i < |jolts| - 1 ==> jolts[i + 1] == jolts[i] + 3
    ensures forall i, j :: 0 <= i <= j < |jolts| ==> jolts[j] == jolts[i] + 3 * (j - i)
    ensures Sorted(jolts)
  {
    forall i, j | 0 <= i <= j < |jolts| ensures jolts[j] == jolts[i] + 3 * (j - i) {
      GapsThreeFrom(jolts, i, j);
    }
  }

  lemma {:induction false} GapsThreeFrom(jolts: seq<nat>, i: nat, j: nat)
    requires forall i :: 0 <= i < |jolts| - 1 ==> jolts[i + 1] == jolts[i] + 3
    requires i <= j < |jolts|
    ensures jolts[j] == jolts[i] + 3 * (j - i)
    decreases j - i
  {
    if i < j {
      GapsThreeFrom(jolts, i, j - 1);
    }
  }

  /** A chain in which no step exceeds 3 jolts can always be completed: at least one way
      exists from every position. */
  lemma {:induction false} PathsPositive(jolts: seq<nat>, pos: nat)
    requires |jolts| >= 1 && pos < |jolts|
    requires forall i :: 0 <= i < |jolts| - 1 ==> jolts[i + 1] <= jolts[i] + 3
    ensures Paths(jolts, pos) >= 1
    decreases |jolts| - pos
  {
    if pos < |jolts| - 1 {
      PathsPositive(jolts, pos + 1);
      assert jolts[pos + 1] <= jolts[pos] + 3;
    }
  }

  /** The two chains of the unit tests: [0, 1] has one, [0, 1, 2, 3] has four. */
  lemma PathsExamples()
    ensures Paths([0, 1], 0) == 1
    ensures Paths([0, 1, 2, 3], 0) == 4
  {
    var j := [0, 1, 2, 3];
    assert Paths(j, 3) == 1;
    assert PathsVia(j, 2, 3) == 1;
    assert Paths(j, 2) == 1;
    assert PathsVia(j, 1, 3) == 1;
    assert Paths(j, 1) == 2;
    assert PathsVia(j, 0, 3) == 1;
    assert PathsVia(j, 0, 2) == 2;
  }

  /** The step histograms of the unit tests: {1: 3, 3: 2} and, after fixing the eleven
      ratings of the second test, {1: 7, 3: 5}. */
  lemma StepCountExamples()
    ensures StepCount([0, 1, 4, 7, 8, 9], 1, 5) == 3 && StepCount([0, 1, 4, 7, 8, 9], 3, 5) == 2
    ensures StepCount([0, 1, 4, 5, 6, 7, 10, 11, 12, 15, 16, 19, 22], 1, 12) == 7
    ensures StepCount([0, 1, 4, 5, 6, 7, 10, 11, 12, 15, 16, 19, 22], 3, 12) == 5
  {
    var j := [0, 1, 4, 5, 6, 7, 10, 11, 12, 15, 16, 19, 22];
    assert StepCount(j, 1, 4) == 3 && StepCount(j, 3, 4) == 1;
    assert StepCount(j, 1, 8) == 6 && StepCount(j, 3, 8) == 2;
  }

  /** The unit test of `fix_input`, stated against the contract. */
  method FixInputExample()
  {
    var fixed := FixInput([4, 232, 65]);
    SortedSlice(fixed, 1, 4);
    SortedOfThree(fixed[1..4], 4, 232, 65);
    assert fixed == [fixed[0]] + fixed[1..4] + [fixed[4]];
    assert fixed == [0, 4, 65, 232, 235];
  }

  /** The only sorted arrangement of the three ratings of the unit test. */
  lemma SortedOfThree(middle: seq<int>, a: int, b: int, c: int)
    requires a == 4 && b == 232 && c == 65
    requires Sorted(middle) && multiset(middle) == multiset([a, b, c])
    ensures middle == [a, c, b]
  {
    assert multiset([a, b, c]) == multiset([a, c, b]) by {
      assert [a, b, c] == [a] + [b] + [c];
      assert [a, c, b] == [a] + [c] + [b];
    }
    SortedUnique(middle, [a, c, b]);
  }

  /** The first unit test of `count_steps`, stated against the contract. */
  method CountStepsExample()
  {
    var jolts: seq<nat> := [0, 1, 4, 7, 8, 9];
    assert Sorted(jolts) by {
      assert forall i :: 0 <= i < 5 ==> jolts[i] <= jolts[i + 1];
    }
    var counts := CountSteps(jolts);
    HistogramOfExample(counts, jolts);
  }

  /** The histogram that the contract of `CountSteps` admits for the first unit test. */
  lemma HistogramOfExample(counts: map<nat, nat>, jolts: seq<nat>)
    requires jolts == [0, 1, 4, 7, 8, 9]
    requires forall d :: d in counts <==> exists i :: 0 <= i < |jolts| - 1 && Gap(jolts, i) == d
    requires forall d :: d in counts ==> counts[d] == StepCount(jolts, d, |jolts| - 1)
    ensures counts == map[1 := 3, 3 := 2]
  {
    ExampleGaps(jolts);
    HistogramKeys(counts, jolts);
    StepCountExamples();
    TwoKeys(counts);
  }

  /** A histogram with keys 1 and 3 counting 3 and 2 is that map. */
  lemma TwoKeys(counts: map<nat, nat>)
    requires counts.Keys == {1, 3} && counts[1] == 3 && counts[3] == 2
    ensures counts == map[1 := 3, 3 := 2]
  {
  }

  /** The differences of the first unit test are 1, 3, 3, 1 and 1. */
  lemma ExampleGaps(jolts: seq<nat>)
    requires jolts == [0, 1, 4, 7, 8, 9]
    ensures forall i :: 0 <= i < |jolts| - 1 ==> Gap(jolts, i) == 1 || Gap(jolts, i) == 3
    ensures Gap(jolts, 0) == 1 && Gap(jolts, 1) == 3
  {
  }

  /** The keys of that histogram are the sizes 1 and 3. */
  lemma HistogramKeys(counts: map<nat, nat>, jolts: seq<nat>)
    requires |jolts| >= 3 && Gap(jolts, 0) == 1 && Gap(jolts, 1) == 3
    requires forall i :: 0 <= i < |jolts| - 1 ==> Gap(jolts, i) == 1 || Gap(jolts, i) == 3
    requires forall d :: d in counts <==> exists i :: 0 <= i < |jolts| - 1 && Gap(jolts, i) == d
    ensures counts.Keys == {1, 3}
  {
    assert 1 in counts by {
      assert 0 <= 0 < |jolts| - 1 && Gap(jolts, 0) == 1;
    }
    assert 3 in counts by {
      assert 0 <= 1 < |jolts| - 1 && Gap(jolts, 1) == 3;
    }
  }

  /** The unit tests of `count_paths`, stated against the contract, each with an empty memo. */
  method CountPathsExample()
  {
    PathsExamples();
    var one, _ := CountPaths([0, 1], 0, map[]);
    assert one == 1;
    var four, _ := CountPaths([0, 1, 2, 3], 0, map[]);
    assert four == 4;
  }
}
