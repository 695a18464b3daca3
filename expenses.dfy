/** The expense report (src/bin/2020-01.rs): find two entries, then three entries, that sum
    to a target. Where the source panics because no entries sum to the target, the result
    here is `None`. Entries are `i32` in the source and unbounded here. */
module ExpenseReport {
  import opened Wrappers

  /** The entry at position `k` completes a pair with an entry before it. */
  ghost predicate PairEndsAt(nums: seq<int>, target: int, k: nat)
  {
    k < |nums| && exists j :: 0 <= j < k && nums[j] + nums[k] == target
  }

  /** `find_pair`: one pass that remembers, for every entry seen so far, the number that would
      complete it, mapped to the entry itself. The first entry found among those numbers
      returns with its partner. */
  method FindPair(target: int, nums: seq<int>) returns (r: Option<(int, int)>)
    ensures r.Some? ==> exists k: nat :: (PairEndsAt(nums, target, k)
      && (forall k': nat :: k' < k ==> !PairEndsAt(nums, target, k'))
      && r.value == (nums[k], target - nums[k]))
    ensures r.None? <==> forall k: nat :: k < |nums| ==> !PairEndsAt(nums, target, k)
  {
    var index: map<int, int> := map[];
    for k := 0 to |nums|
      invariant forall v :: v in index <==> exists j :: 0 <= j < k && target - nums[j] == v
      invariant forall v :: v in index ==> index[v] == target - v
      invariant forall k': nat :: k' < k ==> !PairEndsAt(nums, target, k')
    {
      var num := nums[k];
      if num in index {
        var other := index[num];
        var j :| 0 <= j < k && target - nums[j] == num;
        assert PairEndsAt(nums, target, k);
        return Some((num, other));
      }
      assert !PairEndsAt(nums, target, k);
      index := index[target - num := num];
    }
    r := None;
  }

  /** Positions `a`, `b` and `c` of entries summing to the target, as `find_three_pair`
      admits them: `a` differs from `b` and `b` from `c`, while `a` and `c` may be equal. */
  ghost predicate AdmittedTriple(nums: seq<int>, target: int, a: nat, b: nat, c: nat)
  {
    a < |nums| && b < |nums| && c < |nums| && a != b && b != c && nums[a] + nums[b] + nums[c] == target
  }

  /** `(a, b, c)` comes before `(x, y, z)` in the order the loops visit them. */
  predicate Earlier(a: nat, b: nat, c: nat, x: nat, y: nat, z: nat)
  {
    a < x || (a == x && b < y) || (a == x && b == y && c < z)
  }

  /** The admitted triple that the nested loops reach first. */
  ghost predicate FirstAdmitted(nums: seq<int>, target: int, a: nat, b: nat, c: nat)
  {
    AdmittedTriple(nums, target, a, b, c)
      && forall x: nat, y: nat, z: nat :: AdmittedTriple(nums, target, x, y, z) ==> !Earlier(x, y, z, a, b, c)
  }

  /** `find_three_pair`: three nested loops over the positions, skipping a repeated first and
      second position and a repeated second and third position. */
  method FindThreePair(target: int, nums: seq<int>) returns (r: Option<(int, int, int)>)
    ensures r.Some? ==> exists a: nat, b: nat, c: nat :: (FirstAdmitted(nums, target, a, b, c)
      && r.value == (nums[a], nums[b], nums[c]))
    ensures r.None? <==> forall a: nat, b: nat, c: nat :: !AdmittedTriple(nums, target, a, b, c)
  {
    for a := 0 to |nums|
      invariant forall x: nat, y: nat, z: nat :: AdmittedTriple(nums, target, x, y, z) ==> x >= a
    {
      for b := 0 to |nums|
        invariant forall x: nat, y: nat, z: nat :: AdmittedTriple(nums, target, x, y, z) ==> x > a || (x == a && y >= b)
      {
        if a == b {
          continue;
        }
        for c := 0 to |nums|
          invariant forall x: nat, y: nat, z: nat :: AdmittedTriple(nums, target, x, y, z) ==>
            x > a || (x == a && y > b) || (x == a && y == b && z >= c)
        {
          if b == c {
            continue;
          }
          if nums[a] + nums[b] + nums[c] == target {
            assert FirstAdmitted(nums, target, a, b, c);
            return Some((nums[a], nums[b], nums[c]));
          }
        }
      }
    }
    r := None;
  }

  /** The triples whose three positions all differ. */
  ghost predicate DistinctTriple(nums: seq<int>, target: int, a: nat, b: nat, c: nat)
  {
    AdmittedTriple(nums, target, a, b, c) && a != c
  }

  /** The first triple of three different entries that the nested loops reach. */
  ghost predicate FirstDistinct(nums: seq<int>, target: int, a: nat, b: nat, c: nat)
  {
    DistinctTriple(nums, target, a, b, c)
      && forall x: nat, y: nat, z: nat :: DistinctTriple(nums, target, x, y, z) ==> !Earlier(x, y, z, a, b, c)
  }

  /** `find_three_pair` as its comment intends it, never using one entry twice: the third
      loop also skips the first position. */
  method FindThreeDistinct(target: int, nums: seq<int>) returns (r: Option<(int, int, int)>)
    ensures r.Some? ==> exists a: nat, b: nat, c: nat :: (FirstDistinct(nums, target, a, b, c)
      && r.value == (nums[a], nums[b], nums[c]))
    ensures r.None? <==> forall a: nat, b: nat, c: nat :: !DistinctTriple(nums, target, a, b, c)
  {
    for a := 0 to |nums|
      invariant forall x: nat, y: nat, z: nat :: DistinctTriple(nums, target, x, y, z) ==> x >= a
    {
      for b := 0 to |nums|
        invariant forall x: nat, y: nat, z: nat :: DistinctTriple(nums, target, x, y, z) ==> x > a || (x == a && y >= b)
      {
        if a == b {
          continue;
        }
        for c := 0 to |nums|
          invariant forall x: nat, y: nat, z: nat :: DistinctTriple(nums, target, x, y, z) ==>
            x > a || (x == a && y > b) || (x == a && y == b && z >= c)
        {
          if b == c || a == c {
            continue;
          }
          if nums[a] + nums[b] + nums[c] == target {
            assert FirstDistinct(nums, target, a, b, c);
            return Some((nums[a], nums[b], nums[c]));
          }
        }
      }
    }
    r := None;
  }

  /** The unit tests of `find_pair` and `find_three_pair`. */
  method Examples()
  {
    var nums := [1, 2, 3, 4, 5];
    var pair := FindPair(5, nums);
    assert PairEndsAt(nums, 5, 2) by {
      assert nums[1] + nums[2] == 5;
    }
    assert !PairEndsAt(nums, 5, 0) && !PairEndsAt(nums, 5, 1);
    assert pair == Some((3, 2));
    var three := FindThreePair(6, nums);
    assert FirstAdmitted(nums, 6, 0, 1, 2);
    assert three == Some((1, 2, 3));
  }

  /** With target 4 and entries [1, 2], positions 0, 1, 0 are the first triple the
      as-written loops admit, while no three different positions sum to 4. */
  lemma ReuseAdmitted(nums: seq<int>)
    requires nums == [1, 2]
    ensures FirstAdmitted(nums, 4, 0, 1, 0) && (nums[0], nums[1], nums[0]) == (1, 2, 1)
    ensures forall a: nat, b: nat, c: nat :: !DistinctTriple(nums, 4, a, b, c)
  {
    forall a: nat, b: nat, c: nat ensures !DistinctTriple(nums, 4, a, b, c) {
    }
  }

  /** On that input the as-written search returns (1, 2, 1), using the first entry twice,
      and the intended search finds nothing. */
  method ReuseExample()
  {
    var nums := [1, 2];
    ReuseAdmitted(nums);
    var asWritten := FindThreePair(4, nums);
    assert asWritten == Some((1, 2, 1));
    var intended := FindThreeDistinct(4, nums);
    assert intended.None?;
  }
}
