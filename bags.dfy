/** The luggage rules (src/bin/2020-07.rs): each bag color maps to the colors and counts of
    the bags it must contain. The rules arrive already read into that map. Neither search
    keeps a visited set. `child_bags` recurses without end on a reachable containment cycle;
    `bag_can_contain` can still end on some cycles, since it stops at the first child that
    is the desired bag. Both are modelled under a rank on the colors, falling from every bag
    to each contained bag that has rules, which makes the recursion provably end and leaves
    out the cyclic rules on which the source's search still ends. */
module Bags {
  type Color = string

  /** The rules: for each color, the contained colors with their counts, in order. */
  type Rules = map<Color, seq<(Color, nat)>>

  /** `DESIRED_BAG`. */
  const Desired: Color := "shiny gold"

  /** Every contained color that has rules of its own ranks below its container. */
  predicate Ranked(bags: Rules, rank: map<Color, nat>)
  {
    bags.Keys <= rank.Keys
      && forall c, k :: c in bags && 0 <= k < |bags[c]| && bags[c][k].0 in bags ==> rank[bags[c][k].0] < rank[c]
  }

  /** How far the searches may still descend from `color`. */
  function Height(bags: Rules, rank: map<Color, nat>, color: Color): nat
    requires Ranked(bags, rank)
  {
    if color in bags then rank[color] + 1 else 0
  }

  /** Every contained color is lower than its container. */
  lemma ChildLower(bags: Rules, rank: map<Color, nat>, parent: Color, k: nat)
    requires Ranked(bags, rank) && parent in bags && k < |bags[parent]|
    ensures Height(bags, rank, bags[parent][k].0) < Height(bags, rank, parent)
  {
  }

  // bag_can_contain

  /** `bag_can_contain`: the desired bag holds itself; a color without rules holds nothing;
      any other holds it when one of its children is the desired bag or can hold it. */
  function CanContain(bags: Rules, rank: map<Color, nat>, color: Color): (r: bool)
    requires Ranked(bags, rank)
    ensures color == Desired ==> r
    ensures r && color != Desired ==> color in bags && |bags[color]| >= 1
    decreases Height(bags, rank, color), 1, 0
  {
    if color == Desired then true
    else if color !in bags then false
    else AnyChildCan(bags, rank, color, 0)
  }

  /** The loop over the children of `parent` from position `i` on, returning true at the
      first child that is the desired bag or can hold it. */
  function AnyChildCan(bags: Rules, rank: map<Color, nat>, parent: Color, i: nat): (r: bool)
    requires Ranked(bags, rank) && parent in bags && i <= |bags[parent]|
    ensures r ==> i < |bags[parent]|
    decreases Height(bags, rank, parent), 0, |bags[parent]| - i
  {
    if i == |bags[parent]| then false
    else
      var child := bags[parent][i].0;
      ChildLower(bags, rank, parent, i);
      if child == Desired then true
      else if CanContain(bags, rank, child) then true
      else AnyChildCan(bags, rank, parent, i + 1)
  }

  /** The loop finds a child exactly when some child from position `i` on is the desired bag
      or can hold it. */
  lemma {:induction false} AnyChildCanMeans(bags: Rules, rank: map<Color, nat>, parent: Color, i: nat)
    requires Ranked(bags, rank) && parent in bags && i <= |bags[parent]|
    ensures AnyChildCan(bags, rank, parent, i) <==>
      (exists k :: i <= k < |bags[parent]| && (bags[parent][k].0 == Desired || CanContain(bags, rank, bags[parent][k].0)))
    decreases |bags[parent]| - i
  {
    if i < |bags[parent]| {
      AnyChildCanMeans(bags, rank, parent, i + 1);
    }
  }

  /** `child` is listed among the bags `parent` must contain. */
  predicate ChildOf(bags: Rules, parent: Color, child: Color)
  {
    parent in bags && exists k :: 0 <= k < |bags[parent]| && bags[parent][k].0 == child
  }

  /** A chain of colors, each containing the next, that ends at the desired bag. */
  predicate IsChain(bags: Rules, chain: seq<Color>)
  {
    |chain| >= 1 && chain[|chain| - 1] == Desired
      && forall k :: 0 <= k < |chain| - 1 ==> ChildOf(bags, chain[k], chain[k + 1])
  }

  /** A bag can hold the desired bag exactly when a chain of containment leads from it to
      the desired bag. */
  lemma CanContainChain(bags: Rules, rank: map<Color, nat>, color: Color)
    requires Ranked(bags, rank)
    ensures CanContain(bags, rank, color) <==> exists chain :: IsChain(bags, chain) && chain[0] == color
  {
    if CanContain(bags, rank, color) {
      var chain := ChainOf(bags, rank, color);
    }
    if chain :| IsChain(bags, chain) && chain[0] == color {
      ChainCan(bags, rank, chain);
    }
  }

  /** The chain the search follows from a bag that can hold the desired bag. */
  lemma {:induction false} ChainOf(bags: Rules, rank: map<Color, nat>, color: Color) returns (chain: seq<Color>)
    requires Ranked(bags, rank) && CanContain(bags, rank, color)
    ensures IsChain(bags, chain) && chain[0] == color
    decreases Height(bags, rank, color)
  {
    if color == Desired {
      chain := [color];
    } else {
      AnyChildCanMeans(bags, rank, color, 0);
      var k :| 0 <= k < |bags[color]| && (bags[color][k].0 == Desired || CanContain(bags, rank, bags[color][k].0));
      var child := bags[color][k].0;
      assert ChildOf(bags, color, child);
      ChildLower(bags, rank, color, k);
      var rest := [child];
      if child != Desired {
        rest := ChainOf(bags, rank, child);
      }
      chain := [color] + rest;
      assert forall j :: 0 < j < |chain| - 1 ==> chain[j] == rest[j - 1] && chain[j + 1] == rest[j];
    }
  }

  /** Every bag at the head of a chain can hold the desired bag. */
  lemma {:induction false} ChainCan(bags: Rules, rank: map<Color, nat>, chain: seq<Color>)
    requires Ranked(bags, rank) && IsChain(bags, chain)
    ensures CanContain(bags, rank, chain[0])
    decreases |chain|
  {
    var color := chain[0];
    if |chain| > 1 && color != Desired {
      assert ChildOf(bags, color, chain[1]);
      var k :| 0 <= k < |bags[color]| && bags[color][k].0 == chain[1];
      var rest := chain[1..];
      assert forall j :: 0 <= j < |rest| - 1 ==> ChildOf(bags, rest[j], rest[j + 1]) by {
        forall j | 0 <= j < |rest| - 1
          ensures ChildOf(bags, rest[j], rest[j + 1])
        {
          assert rest[j] == chain[j + 1] && rest[j + 1] == chain[j + 2];
        }
      }
      ChainCan(bags, rank, rest);
      AnyChildCanMeans(bags, rank, color, 0);
    }
  }

  /** A color without rules, other than the desired bag itself, holds nothing. */
  lemma UnknownHoldsNothing(bags: Rules, rank: map<Color, nat>, color: Color)
    requires Ranked(bags, rank) && color != Desired && color !in bags
    ensures !CanContain(bags, rank, color)
  {
  }

  /** The number of colors with rules, other than the desired bag, that can hold it. */
  function ContainerCount(bags: Rules, rank: map<Color, nat>): (n: nat)
    requires Ranked(bags, rank)
    ensures n <= |bags.Keys - {Desired}|
  {
    var holders := set c | c in bags.Keys - {Desired} && CanContain(bags, rank, c);
    assert holders <= bags.Keys - {Desired};
    SubsetSize(holders, bags.Keys - {Desired});
    |holders|
  }

  lemma SubsetSize(a: set<Color>, b: set<Color>)
    requires a <= b
    ensures |a| <= |b|
  {
    assert b == a + (b - a);
  }

  // child_bags

  /** `child_bags`: no bags inside a color without rules; otherwise the fold over the
      children, each adding its count and its count times its own contents. */
  function ChildBags(bags: Rules, rank: map<Color, nat>, color: Color): (r: nat)
    requires Ranked(bags, rank)
    ensures color !in bags ==> r == 0
    ensures color in bags ==> r >= SumCounts(bags[color], |bags[color]|)
    decreases Height(bags, rank, color), 1, 0
  {
    if color !in bags then 0 else Fold(bags, rank, color, |bags[color]|)
  }

  /** The bags listed directly in the first `n` entries of a rule, by their counts. */
  function SumCounts(children: seq<(Color, nat)>, n: nat): nat
    requires n <= |children|
  {
    if n == 0 then 0 else SumCounts(children, n - 1) + children[n - 1].1
  }

  /** The fold over the first `n` children of `parent`. */
  function Fold(bags: Rules, rank: map<Color, nat>, parent: Color, n: nat): (r: nat)
    requires Ranked(bags, rank) && parent in bags && n <= |bags[parent]|
    ensures r >= SumCounts(bags[parent], n)
    decreases Height(bags, rank, parent), 0, n
  {
    if n == 0 then 0
    else
      var (child, count) := bags[parent][n - 1];
      ChildLower(bags, rank, parent, n - 1);
      Fold(bags, rank, parent, n - 1) + count + count * ChildBags(bags, rank, child)
  }

  /** What one child of `parent` adds: its count of bags and what they hold. */
  function Share(bags: Rules, rank: map<Color, nat>, parent: Color, k: nat): nat
    requires Ranked(bags, rank) && parent in bags && k < |bags[parent]|
  {
    bags[parent][k].1 * (1 + ChildBags(bags, rank, bags[parent][k].0))
  }

  /** Each of the first `n` children adds its share, so the fold is at least every share,
      and it is zero exactly when each of those children comes with count zero. */
  lemma {:induction false} FoldShares(bags: Rules, rank: map<Color, nat>, parent: Color, n: nat)
    requires Ranked(bags, rank) && parent in bags && n <= |bags[parent]|
    ensures forall k :: 0 <= k < n ==> Share(bags, rank, parent, k) <= Fold(bags, rank, parent, n)
    ensures Fold(bags, rank, parent, n) == 0 <==> forall k :: 0 <= k < n ==> bags[parent][k].1 == 0
  {
    if n > 0 {
      FoldShares(bags, rank, parent, n - 1);
      var (child, count) := bags[parent][n - 1];
      assert count + count * ChildBags(bags, rank, child) == Share(bags, rank, parent, n - 1);
    }
  }

  /** A bag holds no bags exactly when it has no rules, no children, or only children with
      count zero; otherwise it holds at least each child's share. */
  lemma ChildBagsFacts(bags: Rules, rank: map<Color, nat>, color: Color)
    requires Ranked(bags, rank)
    ensures ChildBags(bags, rank, color) == 0 <==>
      color !in bags || forall k :: 0 <= k < |bags[color]| ==> bags[color][k].1 == 0
    ensures color in bags ==>
      forall k :: 0 <= k < |bags[color]| ==> Share(bags, rank, color, k) <= ChildBags(bags, rank, color)
  {
    if color in bags {
      FoldShares(bags, rank, color, |bags[color]|);
    }
  }

  // The unit tests

  /** The rules of the first unit test input. */
  function SampleRules(): Rules
  {
    map[
      "light red" := [("bright white", 1), ("muted yellow", 2)],
      "dark orange" := [("bright white", 3), ("muted yellow", 4)],
      "bright white" := [("shiny gold", 1)],
      "muted yellow" := [("shiny gold", 2), ("faded blue", 9)],
      "shiny gold" := [("dark olive", 1), ("vibrant plum", 2)],
      "dark olive" := [("faded blue", 3), ("dotted black", 4)],
      "vibrant plum" := [("faded blue", 5), ("dotted black", 6)],
      "faded blue" := [],
      "dotted black" := []]
  }

  function SampleRank(): map<Color, nat>
  {
    map[
      "light red" := 4, "dark orange" := 4, "bright white" := 3, "muted yellow" := 3,
      "shiny gold" := 2, "dark olive" := 1, "vibrant plum" := 1, "faded blue" := 0, "dotted black" := 0]
  }

  lemma SampleRanked(bags: Rules, rank: map<Color, nat>)
    requires bags == SampleRules() && rank == SampleRank()
    ensures Ranked(bags, rank)
  {
  }

  /** The unit test of `bag_can_contain`: the desired bag itself and bright white can hold
      it, faded blue cannot. */
  lemma CanContainExamples(bags: Rules, rank: map<Color, nat>)
    requires bags == SampleRules() && rank == SampleRank()
    ensures Ranked(bags, rank)
    ensures CanContain(bags, rank, "shiny gold")
    ensures CanContain(bags, rank, "bright white")
    ensures !CanContain(bags, rank, "faded blue")
  {
    SampleRanked(bags, rank);
    assert bags["bright white"][0].0 == Desired;
    assert AnyChildCan(bags, rank, "bright white", 0);
    assert bags["faded blue"] == [];
  }

  /** The rules of the second unit test input: each dark bag holds two of the next. */
  function ChainRules(): Rules
  {
    map[
      "shiny gold" := [("dark red", 2)],
      "dark red" := [("dark orange", 2)],
      "dark orange" := [("dark yellow", 2)],
      "dark yellow" := [("dark green", 2)],
      "dark green" := [("dark blue", 2)],
      "dark blue" := [("dark violet", 2)],
      "dark violet" := []]
  }

  function ChainRank(): map<Color, nat>
  {
    map[
      "shiny gold" := 6, "dark red" := 5, "dark orange" := 4, "dark yellow" := 3,
      "dark green" := 2, "dark blue" := 1, "dark violet" := 0]
  }

  lemma ChainRanked(bags: Rules, rank: map<Color, nat>)
    requires bags == ChainRules() && rank == ChainRank()
    ensures Ranked(bags, rank)
  {
  }

  /** A bag holding two of a bag that holds `inner` bags holds 2 + 2 * inner. */
  lemma TwoOf(bags: Rules, rank: map<Color, nat>, color: Color, child: Color)
    requires Ranked(bags, rank) && color in bags && bags[color] == [(child, 2)]
    ensures ChildBags(bags, rank, color) == 2 + 2 * ChildBags(bags, rank, child)
  {
    assert Fold(bags, rank, color, 1) == Fold(bags, rank, color, 0) + 2 + 2 * ChildBags(bags, rank, child);
  }

  /** The unit test of `child_bags`: a shiny gold bag holds 126 bags. */
  lemma ChildBagsExample(bags: Rules, rank: map<Color, nat>)
    requires bags == ChainRules() && rank == ChainRank()
    ensures Ranked(bags, rank) && ChildBags(bags, rank, Desired) == 126
  {
    ChainRanked(bags, rank);
    assert ChildBags(bags, rank, "dark violet") == 0;
    TwoOf(bags, rank, "dark blue", "dark violet");
    TwoOf(bags, rank, "dark green", "dark blue");
    TwoOf(bags, rank, "dark yellow", "dark green");
    TwoOf(bags, rank, "dark orange", "dark yellow");
    TwoOf(bags, rank, "dark red", "dark orange");
    TwoOf(bags, rank, "shiny gold", "dark red");
  }
}
