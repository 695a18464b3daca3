/** The floor counter (src/bin/2015-01.rs): every '(' goes one floor up, every ')' one floor
    down, starting on floor 0. A character that is neither panics in the source; here it is
    the `None` result. Floors are `i32` in the source and unbounded here. */
module Floors {
  import opened Wrappers
  import opened Text

  /** `decode_paren`: the move of one character, if it is a parenthesis. */
  function DecodeParen(paren: char): (r: Option<int>)
    ensures r.Some? <==> paren == '(' || paren == ')'
    ensures r == Some(1) <==> paren == '('
    ensures r == Some(-1) <==> paren == ')'
  {
    match paren
    case '(' => Some(1)
    case ')' => Some(-1)
    case _ => None
  }

  /** Every character of the instructions is a parenthesis. */
  predicate AllParens(s: string)
  {
    forall i :: 0 <= i < |s| ==> s[i] == '(' || s[i] == ')'
  }

  /** The floor reached after following every instruction of `s`: never more floors away
      from the ground than there are instructions, and even exactly when their number is. */
  function Floor(s: string): (r: int)
    requires AllParens(s)
    ensures -|s| <= r <= |s|
    ensures r % 2 == |s| % 2
  {
    if s == [] then 0 else Floor(s[..|s| - 1]) + DecodeParen(s[|s| - 1]).value
  }

  /** `process_floors`: the final floor, or `None` where the source panics. */
  function ProcessFloors(input: string): (r: Option<int>)
    ensures r.Some? <==> AllParens(input)
    ensures r.Some? ==> r.value == Occurrences(input, '(') - Occurrences(input, ')')
  {
    if AllParens(input) then
      FloorCounts(input);
      Some(Floor(input))
    else None
  }

  /** The final floor is the number of '(' minus the number of ')'. */
  lemma {:induction false} FloorCounts(s: string)
    requires AllParens(s)
    ensures Floor(s) == Occurrences(s, '(') - Occurrences(s, ')')
  {
    if s != [] {
      FloorCounts(s[..|s| - 1]);
    }
  }

  /** Following the instructions of `a` and then those of `b`. */
  lemma {:induction false} FloorAppend(a: string, b: string)
    requires AllParens(a) && AllParens(b)
    ensures AllParens(a + b)
    ensures Floor(a + b) == Floor(a) + Floor(b)
    decreases |b|
  {
    if b != [] {
      assert (a + b)[..|a + b| - 1] == a + b[..|b| - 1];
      FloorAppend(a, b[..|b| - 1]);
    } else {
      assert a + b == a;
    }
  }

  /** The first `p` instructions are parentheses and lead to floor `desired`. */
  ghost predicate Reaches(input: string, desired: int, p: nat)
  {
    1 <= p <= |input| && AllParens(input[..p]) && Floor(input[..p]) == desired
  }

  /** `stops_before_floor`: the 1-based position of the instruction that first reaches
      `desired`. `None` stands for both panics: the floor is never reached, or a
      character that is not a parenthesis comes first. */
  method StopsBeforeFloor(input: string, desired: int) returns (r: Option<nat>)
    ensures r.Some? ==> Reaches(input, desired, r.value)
    ensures r.Some? ==> forall q :: 1 <= q < r.value ==> !Reaches(input, desired, q)
    ensures r.None? ==> forall q :: 1 <= q <= |input| ==> !Reaches(input, desired, q)
  {
    var floor := 0;
    var position := 0;
    while position < |input|
      invariant 0 <= position <= |input|
      invariant AllParens(input[..position])
      invariant floor == Floor(input[..position])
      invariant forall q :: 1 <= q <= position ==> !Reaches(input, desired, q)
    {
      var step := DecodeParen(input[position]);
      if step.None? {
        forall q | position < q <= |input| ensures !AllParens(input[..q]) {
          assert input[..q][position] == input[position];
        }
        return None;
      }
      assert input[..position + 1][..position] == input[..position];
      floor := floor + step.value;
      position := position + 1;
      if floor == desired {
        return Some(position);
      }
    }
    r := None;
  }

  /** The unit tests of `decode_paren` and `process_floors`. */
  lemma FloorExamples()
    ensures DecodeParen('(') == Some(1) && DecodeParen(')') == Some(-1)
    ensures ProcessFloors("((()") == Some(2)
    ensures ProcessFloors("))") == Some(-2)
  {
    assert "((()"[..3] == "(((" && "((("[..2] == "((" && "(("[..1] == "(";
    assert "))"[..1] == ")";
  }

  /** The unit tests of `stops_before_floor`, stated against the contract. */
  method StopsExample()
  {
    var r := StopsBeforeFloor(")", -1);
    assert Reaches(")", -1, 1) by {
      assert ")"[..1] == ")";
    }
    assert r == Some(1);
    var s := StopsBeforeFloor("()())", -1);
    assert s == Some(5) by {
      FloorsOfExample("()())");
    }
    var t := StopsBeforeFloor("()()(()", 2);
    assert t == Some(6) by {
      FloorsOfUpwardExample("()()(()");
    }
  }

  /** The floor after `k` instructions is the floor after `k - 1` plus the move of the
      `k`-th. */
  lemma PrefixFloor(s: string, k: nat)
    requires 1 <= k <= |s| && AllParens(s)
    ensures AllParens(s[..k]) && AllParens(s[..k - 1])
    ensures Floor(s[..k]) == Floor(s[..k - 1]) + DecodeParen(s[k - 1]).value
  {
    assert s[..k][..k - 1] == s[..k - 1];
    assert s[..k][k - 1] == s[k - 1];
  }

  /** The prefix floors of "()())": 1, 0, 1, 0, -1. */
  lemma FloorsOfExample(s: string)
    requires s == "()())"
    ensures !Reaches(s, -1, 1) && !Reaches(s, -1, 2) && !Reaches(s, -1, 3)
    ensures !Reaches(s, -1, 4) && Reaches(s, -1, 5)
  {
    assert s[..0] == [];
    PrefixFloor(s, 1);
    PrefixFloor(s, 2);
    PrefixFloor(s, 3);
    PrefixFloor(s, 4);
    PrefixFloor(s, 5);
  }

  /** The prefix floors of "()()(()": 1, 0, 1, 0, 1, 2, 1. */
  lemma FloorsOfUpwardExample(s: string)
    requires s == "()()(()"
    ensures forall q :: 1 <= q < 6 ==> !Reaches(s, 2, q)
    ensures Reaches(s, 2, 6)
  {
    assert s[..0] == [];
    PrefixFloor(s, 1);
    PrefixFloor(s, 2);
    PrefixFloor(s, 3);
    PrefixFloor(s, 4);
    PrefixFloor(s, 5);
    PrefixFloor(s, 6);
  }
}
