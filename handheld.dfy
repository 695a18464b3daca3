/** The handheld console (src/bin/2020-08.rs): a program of `nop`, `acc` and `jmp` lines,
    each with a signed parameter, run from line 0 with the accumulator at 0, until a line
    comes up a second time or the position runs past the last line.

    The runs are specified by the trace `Exec(lines, n)`: the position and accumulator after
    `n` steps, where a position outside the program stays put. The methods keep the source's
    visited set and loop; their results are stated on the trace. */
module Handheld {
  import opened Wrappers
  import opened Numbers

  /** `Instruction`. */
  datatype Instruction = Nop | Acc | Jmp

  /** `Line`: an instruction with its parameter. */
  datatype Line = Line(instruction: Instruction, parameter: int)

  /** The spelling of each instruction. */
  function Name(i: Instruction): (s: string)
    ensures |s| == 3
  {
    match i
    case Nop => "nop"
    case Acc => "acc"
    case Jmp => "jmp"
  }

  /** `Instruction::from_str`: exactly the three names parse. */
  function ParseInstruction(s: string): (r: Option<Instruction>)
    ensures r.Some? <==> s == "nop" || s == "acc" || s == "jmp"
    ensures r.Some? ==> Name(r.value) == s
  {
    if s == "nop" then Some(Nop)
    else if s == "acc" then Some(Acc)
    else if s == "jmp" then Some(Jmp)
    else None
  }

  /** Every instruction reads back from its name. */
  lemma ParseName(i: Instruction)
    ensures ParseInstruction(Name(i)) == Some(i)
  {
  }

  /** `Line::from_str`: the first three characters are the instruction and everything from
      the fifth on is the parameter, an `i32`; the fourth character is skipped. The source
      slices without checking the length, so a line must be long enough to reach each
      slice it takes. */
  function ParseLine(s: string): (r: Option<Line>)
    requires |s| >= 3 && (ParseInstruction(s[..3]).Some? ==> |s| >= 4)
    ensures r.Some? <==> ParseInstruction(s[..3]).Some? && ParseI32(s[4..]).Some?
    ensures r.Some? ==> Name(r.value.instruction) == s[..3] && I32_MIN <= r.value.parameter <= I32_MAX
  {
    match ParseInstruction(s[..3])
    case None => None
    case Some(instruction) =>
      match ParseI32(s[4..])
      case None => None
      case Some(parameter) => Some(Line(instruction, parameter))
  }

  /** A line as the puzzle input writes it: the parameter always carries its sign. */
  function ShowLine(line: Line): string
  {
    Name(line.instruction) + " " + (if line.parameter >= 0 then "+" + Show(line.parameter) else ShowInt(line.parameter))
  }

  /** Every line with an `i32` parameter reads back from its spelling. */
  lemma ParseShowLine(line: Line)
    requires I32_MIN <= line.parameter <= I32_MAX
    ensures |ShowLine(line)| >= 4 && ParseLine(ShowLine(line)) == Some(line)
  {
    var s := ShowLine(line);
    var p := line.parameter;
    assert s[..3] == Name(line.instruction);
    ParseName(line.instruction);
    if p >= 0 {
      assert s[4..] == "+" + Show(p);
      ShowValue(p);
      assert ("+" + Show(p))[1..] == Show(p);
    } else {
      assert s[4..] == ShowInt(p);
      ParseShowI32(p);
    }
  }

  // Execution

  /** Where the program is and what the accumulator holds. */
  datatype State = State(pos: int, acc: int)

  /** One step (the `match` of both loops): `nop` moves on, `acc` adds its parameter and
      moves on, `jmp` moves by its parameter. A position outside the program stays put. */
  function Next(lines: seq<Line>, s: State): State
  {
    if 0 <= s.pos < |lines| then
      var line := lines[s.pos];
      match line.instruction
      case Nop => State(s.pos + 1, s.acc)
      case Acc => State(s.pos + 1, s.acc + line.parameter)
      case Jmp => State(s.pos + line.parameter, s.acc)
    else s
  }

  /** The state after `n` steps from line 0 with the accumulator at 0. */
  function Exec(lines: seq<Line>, n: nat): State
  {
    if n == 0 then State(0, 0) else Next(lines, Exec(lines, n - 1))
  }

  /** Only an `acc` line changes the accumulator, and by its parameter. */
  lemma OnlyAccChanges(lines: seq<Line>, n: nat)
    ensures Exec(lines, n + 1).acc != Exec(lines, n).acc ==>
      0 <= Exec(lines, n).pos < |lines| && lines[Exec(lines, n).pos].instruction == Acc
      && Exec(lines, n + 1).acc == Exec(lines, n).acc + lines[Exec(lines, n).pos].parameter
  {
  }

  /** A program without `acc` lines keeps the accumulator at 0. */
  lemma {:induction false} NoAccKeepsZero(lines: seq<Line>, n: nat)
    requires forall i :: 0 <= i < |lines| ==> lines[i].instruction != Acc
    ensures Exec(lines, n).acc == 0
  {
    if n > 0 {
      NoAccKeepsZero(lines, n - 1);
      OnlyAccChanges(lines, n - 1);
    }
  }

  /** Every position of the run lies inside the program: the `get(pos).unwrap()` of
      `run_until_duplicate` and its `try_from` never fail. */
  ghost predicate StaysInside(lines: seq<Line>)
  {
    forall n: nat :: 0 <= Exec(lines, n).pos < |lines|
  }

  /** No jump takes the position below 0: the `try_from` of `will_complete` never fails. */
  ghost predicate NeverNegative(lines: seq<Line>)
  {
    forall n: nat :: Exec(lines, n).pos >= 0
  }

  /** The set of positions of the first `k` states. */
  function Seen(lines: seq<Line>, k: nat): set<int>
  {
    if k == 0 then {} else Seen(lines, k - 1) + {Exec(lines, k - 1).pos}
  }

  /** A position is in the set exactly when one of the first `k` states is there. */
  lemma {:induction false} SeenMeans(lines: seq<Line>, k: nat, x: int)
    ensures x in Seen(lines, k) <==> exists i :: 0 <= i < k && Exec(lines, i).pos == x
  {
    if k > 0 {
      SeenMeans(lines, k - 1, x);
      if Exec(lines, k - 1).pos == x {
        assert 0 <= k - 1 < k && Exec(lines, k - 1).pos == x;
      }
      if exists i :: 0 <= i < k && Exec(lines, i).pos == x {
        var i :| 0 <= i < k && Exec(lines, i).pos == x;
        if i < k - 1 {
          assert 0 <= i < k - 1 && Exec(lines, i).pos == x;
        }
      }
    }
  }

  /** The first `k` states are at pairwise different positions. */
  ghost predicate Distinct(lines: seq<Line>, k: nat)
  {
    forall i, j :: 0 <= i < j < k ==> Exec(lines, i).pos != Exec(lines, j).pos
  }

  /** No state among the first `k` is at a position of the states before it: the loop's
      check that the visited set does not already hold the position. */
  ghost predicate Fresh(lines: seq<Line>, k: nat)
  {
    k == 0 || (Fresh(lines, k - 1) && Exec(lines, k - 1).pos !in Seen(lines, k - 1))
  }

  /** States that each come to a fresh position are at pairwise different positions. */
  lemma {:induction false} FreshDistinct(lines: seq<Line>, k: nat)
    requires Fresh(lines, k)
    ensures Distinct(lines, k)
  {
    if k > 0 {
      FreshDistinct(lines, k - 1);
      forall i | 0 <= i < k - 1
        ensures Exec(lines, i).pos != Exec(lines, k - 1).pos
      {
        SeenMeans(lines, k - 1, Exec(lines, i).pos);
      }
    }
  }

  /** State `k` is the first to come back to a position already run. */
  ghost predicate FirstRepeat(lines: seq<Line>, k: nat)
  {
    Distinct(lines, k) && exists j :: 0 <= j < k && Exec(lines, j).pos == Exec(lines, k).pos
  }

  /** A set of positions inside the program has at most as many members as the program. */
  lemma {:induction false} InsideBound(s: set<int>, n: nat)
    requires forall x :: x in s ==> 0 <= x < n
    ensures |s| <= n
  {
    if n > 0 {
      var smaller := s - {n - 1};
      InsideBound(smaller, n - 1);
      assert s <= smaller + {n - 1};
      assert |s| <= |smaller + {n - 1}|;
    } else {
      assert forall x :: x in s ==> false;
      assert s == {};
    }
  }

  /** The loop state of both runs after `k` steps. */
  ghost predicate Ran(lines: seq<Line>, k: nat, pos: int, acc: int, visited: set<int>)
  {
    State(pos, acc) == Exec(lines, k) && visited == Seen(lines, k) && |visited| == k && Fresh(lines, k)
      && forall x :: x in visited ==> 0 <= x < |lines|
  }

  /** Running one more line keeps the loop state. */
  lemma RanNext(lines: seq<Line>, k: nat, pos: int, acc: int, visited: set<int>)
    requires Ran(lines, k, pos, acc, visited)
    requires pos !in visited && 0 <= pos < |lines|
    ensures var next := Next(lines, State(pos, acc));
      Ran(lines, k + 1, next.pos, next.acc, visited + {pos})
    ensures k + 1 <= |lines|
  {
    InsideBound(visited + {pos}, |lines|);
  }

  /** `run_until_duplicate`: the accumulator at the first state whose line was already run. */
  method RunUntilDuplicate(lines: seq<Line>) returns (acc: int)
    requires StaysInside(lines)
    ensures exists k :: 0 <= k <= |lines| && FirstRepeat(lines, k) && acc == Exec(lines, k).acc
  {
    var pos := 0;
    acc := 0;
    var visited: set<int> := {};
    ghost var k: nat := 0;
    while true
      invariant Ran(lines, k, pos, acc, visited) && k <= |lines|
      decreases |lines| - k
    {
      if pos in visited {
        SeenMeans(lines, k, pos);
        FreshDistinct(lines, k);
        return;
      }
      assert 0 <= Exec(lines, k).pos < |lines|;
      RanNext(lines, k, pos, acc, visited);
      ghost var next := Next(lines, State(pos, acc));
      visited := visited + {pos};
      k := k + 1;
      var line := lines[pos];
      match line.instruction {
        case Nop =>
          pos := pos + 1;
        case Acc =>
          acc := acc + line.parameter;
          pos := pos + 1;
        case Jmp =>
          pos := pos + line.parameter;
      }
      assert State(pos, acc) == next;
    }
  }

  /** A position outside the program ends the run: the states stay put from then on. */
  lemma {:induction false} Halted(lines: seq<Line>, k: nat, m: nat)
    requires !(0 <= Exec(lines, k).pos < |lines|) && k <= m
    ensures Exec(lines, m) == Exec(lines, k)
    decreases m - k
  {
    if k < m {
      Halted(lines, k, m - 1);
    }
  }

  /** Once a position comes back, every later state is at one of the positions run before. */
  lemma {:induction false} Cycles(lines: seq<Line>, j: nat, k: nat, m: nat)
    requires j < k && Exec(lines, j).pos == Exec(lines, k).pos
    ensures exists i :: 0 <= i < k && Exec(lines, m).pos == Exec(lines, i).pos
  {
    if m < k {
      assert Exec(lines, m).pos == Exec(lines, m).pos;
    } else {
      Cycles(lines, j, k, m - 1);
      var i :| 0 <= i < k && Exec(lines, m - 1).pos == Exec(lines, i).pos;
      assert Exec(lines, m).pos == Exec(lines, i + 1).pos;
      if i + 1 == k {
        assert Exec(lines, m).pos == Exec(lines, j).pos;
      }
    }
  }

  /** A run that comes back to a visited line never leaves the program. */
  lemma StaysAfterRepeat(lines: seq<Line>, k: nat, pos: int, acc: int, visited: set<int>)
    requires Ran(lines, k, pos, acc, visited) && pos in visited
    ensures forall n: nat :: Exec(lines, n).pos < |lines|
    ensures !Completes(lines)
  {
    SeenMeans(lines, k, pos);
    var j :| 0 <= j < k && Exec(lines, j).pos == Exec(lines, k).pos;
    forall n: nat
      ensures Exec(lines, n).pos < |lines|
    {
      Cycles(lines, j, k, n);
      var i :| 0 <= i < k && Exec(lines, n).pos == Exec(lines, i).pos;
      SeenMeans(lines, k, Exec(lines, i).pos);
    }
  }

  /** The run gets past the last line. */
  ghost predicate Completes(lines: seq<Line>)
  {
    exists n: nat :: Exec(lines, n).pos >= |lines|
  }

  /** A run that got past the last line within `k` steps is still there after as many steps
      as there are lines. */
  lemma CompletedAt(lines: seq<Line>, k: nat, pos: int, acc: int, visited: set<int>)
    requires Ran(lines, k, pos, acc, visited) && k <= |lines| && pos >= |lines|
    ensures Completes(lines)
    ensures Exec(lines, |lines|) == State(pos, acc)
  {
    Halted(lines, k, |lines|);
  }

  /** `will_complete`: (true, the final accumulator) when the run gets past the last line,
      which it does within as many steps as there are lines, and (false, 0) when it comes
      back to a line instead. The end is checked before the visited set. */
  method WillComplete(lines: seq<Line>) returns (completed: bool, acc: int)
    requires NeverNegative(lines)
    ensures completed <==> Completes(lines)
    ensures completed ==> Exec(lines, |lines|).pos >= |lines| && acc == Exec(lines, |lines|).acc
    ensures !completed ==> acc == 0 && forall n: nat :: Exec(lines, n).pos < |lines|
  {
    var pos := 0;
    acc := 0;
    var visited: set<int> := {};
    ghost var k: nat := 0;
    while true
      invariant Ran(lines, k, pos, acc, visited) && k <= |lines|
      decreases |lines| - k
    {
      if pos >= |lines| {
        CompletedAt(lines, k, pos, acc, visited);
        return true, acc;
      }
      if pos in visited {
        StaysAfterRepeat(lines, k, pos, acc, visited);
        return false, 0;
      }
      assert Exec(lines, k).pos >= 0;
      RanNext(lines, k, pos, acc, visited);
      ghost var next := Next(lines, State(pos, acc));
      visited := visited + {pos};
      k := k + 1;
      var line := lines[pos];
      match line.instruction {
        case Nop =>
          pos := pos + 1;
        case Acc =>
          acc := acc + line.parameter;
          pos := pos + 1;
        case Jmp =>
          pos := pos + line.parameter;
      }
      assert State(pos, acc) == next;
    }
  }

  // The repair

  /** The lines `flip_until_complete` tries to change. */
  predicate Flippable(line: Line)
  {
    line.instruction != Acc
  }

  /** `nop` and `jmp` swapped, in a fresh copy of the program. */
  function Flip(lines: seq<Line>, index: nat): (r: seq<Line>)
    requires index < |lines|
    ensures |r| == |lines| && r[index].parameter == lines[index].parameter
    ensures forall j :: 0 <= j < |lines| && j != index ==> r[j] == lines[j]
    ensures Flippable(lines[index]) ==> r[index] != lines[index] && Flippable(r[index])
  {
    var swapped := match lines[index].instruction
      case Nop => Jmp
      case Jmp => Nop
      case Acc => Acc;
    lines[index := Line(swapped, lines[index].parameter)]
  }

  /** Flipping the same line twice gives the program back. */
  lemma FlipTwice(lines: seq<Line>, index: nat)
    requires index < |lines|
    ensures Flip(Flip(lines, index), index) == lines
  {
  }

  /** Every changed program tried before `index` loops. */
  ghost predicate TriedFail(lines: seq<Line>, index: nat)
  {
    forall j :: 0 <= j < index && j < |lines| && Flippable(lines[j]) ==> !Completes(Flip(lines, j))
  }

  /** No changed program that gets tried jumps below line 0. */
  ghost predicate FlipsSafe(lines: seq<Line>)
  {
    forall i :: 0 <= i < |lines| && Flippable(lines[i]) && TriedFail(lines, i) ==> NeverNegative(Flip(lines, i))
  }

  /** `flip_until_complete`: the final accumulator of the first program, by the changed line,
      that completes once one `nop` or `jmp` is swapped; none (the source panics) when no
      such change completes. */
  method FlipUntilComplete(lines: seq<Line>) returns (r: Option<int>)
    requires FlipsSafe(lines)
    ensures r.None? <==> TriedFail(lines, |lines|)
    ensures r.Some? ==> exists index :: (0 <= index < |lines| && Flippable(lines[index]) && TriedFail(lines, index)
      && Completes(Flip(lines, index)) && r.value == Exec(Flip(lines, index), |lines|).acc)
  {
    for index := 0 to |lines|
      invariant TriedFail(lines, index)
    {
      if !Flippable(lines[index]) {
        continue;
      }
      var copy := Flip(lines, index);
      var completed, acc := WillComplete(copy);
      if completed {
        return Some(acc);
      }
    }
    return None;
  }

  // The unit tests

  /** The unit tests of the two parsers. */
  lemma ParseExamples()
    ensures ParseInstruction("jmp") == Some(Jmp)
    ensures ParseLine("acc +3") == Some(Line(Acc, 3))
  {
    ParseShowLine(Line(Acc, 3));
    assert ShowLine(Line(Acc, 3)) == "acc +3";
  }

  /** The lines of the programs in the unit tests of the runs. */
  lemma SampleLines()
    ensures ParseLine("nop 0") == Some(Line(Nop, 0)) && ParseLine("jmp -1") == Some(Line(Jmp, -1))
  {
    ParseShowLine(Line(Jmp, -1));
    assert ShowLine(Line(Jmp, -1)) == "jmp -1";
    assert "nop 0"[4..] == Show(0);
    ShowValue(0);
    assert ParseI32("nop 0"[4..]) == Some(0);
  }

  /** "nop 0\njmp -1" alternates between its two lines. */
  lemma {:induction false} LoopTrace(lines: seq<Line>, n: nat)
    requires lines == [Line(Nop, 0), Line(Jmp, -1)]
    ensures Exec(lines, n).pos == n % 2 && Exec(lines, n).acc == 0
  {
    if n > 0 {
      LoopTrace(lines, n - 1);
    }
  }

  /** The unit test of `run_until_duplicate`. */
  method RunExample()
  {
    var lines := [Line(Nop, 0), Line(Jmp, -1)];
    forall n: nat
      ensures 0 <= Exec(lines, n).pos < |lines|
    {
      LoopTrace(lines, n);
    }
    var acc := RunUntilDuplicate(lines);
    ghost var k :| 0 <= k <= |lines| && acc == Exec(lines, k).acc;
    LoopTrace(lines, k);
    assert acc == 0;
  }

  /** The unit test of `will_complete`: "nop 0" completes with 0. */
  method CompleteExample()
  {
    var lines := [Line(Nop, 0)];
    forall n: nat
      ensures Exec(lines, n).pos >= 0
    {
      NoAccKeepsZero(lines, n);
      OneNopTrace(lines, n);
    }
    var completed, acc := WillComplete(lines);
    assert Exec(lines, 1) == State(1, 0);
    assert completed && acc == 0;
  }

  lemma {:induction false} OneNopTrace(lines: seq<Line>, n: nat)
    requires lines == [Line(Nop, 0)]
    ensures Exec(lines, n).pos == if n == 0 then 0 else 1
  {
    if n > 0 {
      OneNopTrace(lines, n - 1);
    }
  }

  /** "jmp +0\njmp -1" never leaves line 0. */
  lemma {:induction false} StuckTrace(lines: seq<Line>, n: nat)
    requires lines == [Line(Jmp, 0), Line(Jmp, -1)]
    ensures Exec(lines, n).pos == 0
  {
    if n > 0 {
      StuckTrace(lines, n - 1);
    }
  }

  /** "nop +0\nnop -1" runs both lines and ends. */
  lemma {:induction false} EndTrace(lines: seq<Line>, n: nat)
    requires lines == [Line(Nop, 0), Line(Nop, -1)]
    ensures Exec(lines, n).pos == if n < 2 then n else 2
  {
    if n > 0 {
      EndTrace(lines, n - 1);
    }
  }

  /** The unit test of `flip_until_complete`: swapping the `jmp` makes "nop 0\njmp -1" end,
      with 0. */
  method FlipExample()
  {
    var lines := [Line(Nop, 0), Line(Jmp, -1)];
    var first, second := Flip(lines, 0), Flip(lines, 1);
    assert first == [Line(Jmp, 0), Line(Jmp, -1)];
    assert second == [Line(Nop, 0), Line(Nop, -1)];
    forall n: nat
      ensures Exec(first, n).pos == 0 && Exec(second, n).pos >= 0
    {
      StuckTrace(first, n);
      EndTrace(second, n);
    }
    assert !Completes(first);
    forall n: nat
      ensures Exec(second, n).acc == 0
    {
      NoAccKeepsZero(second, n);
    }
    EndTrace(second, 2);
    var r := FlipUntilComplete(lines);
    assert !TriedFail(lines, |lines|) by {
      assert Flippable(lines[1]) && Completes(second);
    }
    ghost var index :| 0 <= index < |lines| && Flippable(lines[index]) && r.Some?
      && r.value == Exec(Flip(lines, index), |lines|).acc;
    assert r == Some(0);
  }
}
