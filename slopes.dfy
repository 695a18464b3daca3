/** The toboggan slope (src/bin/2020-03.rs): the map is a sequence of lines that repeat to
    the right; a slope goes down a fixed number of lines and right a fixed number of columns
    per step, and counts the trees ('#') it lands on. */
module Slopes {
  /** `TREE`. */
  const Tree: char := '#'

  /** Every line from `i` on that a walk stepping down by `down` visits is non-empty; the
      source takes the column modulo the line's length and panics on an empty one. */
  predicate VisitedNonEmpty(lines: seq<string>, down: nat, i: nat)
    requires down >= 1
    decreases |lines| - i
  {
    i >= |lines| || (|lines[i]| > 0 && VisitedNonEmpty(lines, down, i + down))
  }

  /** How many lines from `i` on the walk visits: `i`, `i + down`, `i + 2 * down`, ... */
  function VisitsFrom(lines: nat, down: nat, i: nat): nat
    requires down >= 1
    decreases lines - i
  {
    if i >= lines then 0 else 1 + VisitsFrom(lines, down, i + down)
  }

  /** From the top, the walk visits the number of lines divided by `down`, rounded up. */
  lemma {:induction false} VisitsRoundUp(lines: nat, down: nat, i: nat)
    requires down >= 1
    ensures i < lines ==> (VisitsFrom(lines, down, i) >= 1
      && (VisitsFrom(lines, down, i) - 1) * down < lines - i <= VisitsFrom(lines, down, i) * down)
    decreases lines - i
  {
    if i < lines {
      VisitsRoundUp(lines, down, i + down);
      var v := VisitsFrom(lines, down, i + down);
      assert VisitsFrom(lines, down, i) == v + 1;
      if i + down < lines {
        assert (v - 1) * down < lines - i - down <= v * down;
        assert v * down == (v - 1) * down + down;
        assert (v + 1) * down == v * down + down;
      } else {
        assert v == 0;
      }
    }
  }

  /** The trees met from line `i` on, where line `i` is the walk's `k`-th step: step `k`
      lands on column `k * right`, wrapped around the line's length. */
  function TreesFrom(lines: seq<string>, down: nat, right: nat, i: nat, k: nat): (t: nat)
    requires down >= 1 && VisitedNonEmpty(lines, down, i)
    ensures t <= VisitsFrom(|lines|, down, i)
    decreases |lines| - i
  {
    if i >= |lines| then 0
    else
      var line := lines[i];
      (if line[(k * right) % |line|] == Tree then 1 else 0) + TreesFrom(lines, down, right, i + down, k + 1)
  }

  /** The walk meets no tree exactly when no visited line holds one at the sampled column. */
  lemma {:induction false} TreesFromZero(lines: seq<string>, down: nat, right: nat, i: nat, k: nat)
    requires down >= 1 && VisitedNonEmpty(lines, down, i)
    ensures TreesFrom(lines, down, right, i, k) == 0 <==>
      forall j: nat :: j < VisitsFrom(|lines|, down, i) ==> !TreeAt(lines, down, right, i, k, j)
    decreases |lines| - i
  {
    if i < |lines| {
      TreesFromZero(lines, down, right, i + down, k + 1);
      assert TreeAt(lines, down, right, i, k, 0) == (lines[i][(k * right) % |lines[i]|] == Tree) by {
        assert i + 0 * down == i;
        assert (k + 0) * right == k * right;
      }
      if TreesFrom(lines, down, right, i, k) == 0 {
        forall j: nat | j < VisitsFrom(|lines|, down, i)
          ensures !TreeAt(lines, down, right, i, k, j)
        {
          if j >= 1 {
            TreeAtShift(lines, down, right, i, k, j);
          }
        }
      } else if lines[i][(k * right) % |lines[i]|] != Tree {
        var j: nat :| j < VisitsFrom(|lines|, down, i + down) && TreeAt(lines, down, right, i + down, k + 1, j);
        TreeAtShift(lines, down, right, i, k, j + 1);
      }
    }
  }

  /** The `j`-th visited line from line `i` (step `k`) holds a tree at its sampled column. */
  predicate TreeAt(lines: seq<string>, down: nat, right: nat, i: nat, k: nat, j: nat)
    requires down >= 1
  {
    var row := i + j * down;
    row < |lines| && |lines[row]| > 0 && lines[row][((k + j) * right) % |lines[row]|] == Tree
  }

  lemma TreeAtShift(lines: seq<string>, down: nat, right: nat, i: nat, k: nat, j: nat)
    requires down >= 1 && j >= 1
    ensures TreeAt(lines, down, right, i, k, j) == TreeAt(lines, down, right, i + down, k + 1, j - 1)
  {
    assert i + j * down == i + down + (j - 1) * down;
    assert k + j == k + 1 + (j - 1);
  }

  /** `count_trees`: the trees met on the way down the whole map. */
  method CountTrees(lines: seq<string>, down: nat, right: nat) returns (trees: nat)
    requires down >= 1 && VisitedNonEmpty(lines, down, 0)
    ensures trees == TreesFrom(lines, down, right, 0, 0)
    ensures trees <= VisitsFrom(|lines|, down, 0)
  {
    trees := 0;
    var index: nat := 0;
    var i: nat := 0;
    while i < |lines|
      invariant VisitedNonEmpty(lines, down, i)
      invariant trees + TreesFrom(lines, down, right, i, index) == TreesFrom(lines, down, right, 0, 0)
      decreases |lines| - i
    {
      var line := lines[i];
      var column := (index * right) % |line|;
      var value := line[column];
      index := index + 1;
      if value == Tree {
        trees := trees + 1;
      }
      i := i + down;
    }
  }

  /** The sample map of the unit test. */
  function SampleMap(): seq<string>
  {
    [ "..##.......",
      "#...#...#..",
      ".#....#..#.",
      "..#.#...#.#",
      ".#...##..#.",
      "..#.##.....",
      ".#.#.#....#",
      ".#........#",
      "#.##...#...",
      "#...##....#",
      ".#..#...#.#"]
  }

  /** Every line of the sample map is eleven characters wide. */
  lemma SampleMapNonEmpty()
    ensures VisitedNonEmpty(SampleMap(), 1, 0)
  {
    assert VisitedNonEmpty(SampleMap(), 1, 6);
  }

  /** The last five steps of the sample walk meet four trees. */
  lemma SampleLowerTrees()
    requires VisitedNonEmpty(SampleMap(), 1, 6)
    ensures TreesFrom(SampleMap(), 1, 3, 6, 6) == 4
  {
  }

  /** The whole sample walk meets seven trees. */
  lemma SampleTrees()
    requires VisitedNonEmpty(SampleMap(), 1, 0)
    ensures TreesFrom(SampleMap(), 1, 3, 0, 0) == 7
  {
    SampleLowerTrees();
  }

  /** The unit test: the sample map, going down 1 and right 3, meets 7 trees. */
  method CountTreesExample()
  {
    SampleMapNonEmpty();
    var trees := CountTrees(SampleMap(), 1, 3);
    SampleTrees();
    assert trees == 7;
  }
}
