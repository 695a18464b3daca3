/** The delivery walk (src/bin/2015-03.rs): one or more movers start at the origin of an
    infinite grid and take turns following a list of arrows; the answer is the set of houses
    that receive at least one present. Coordinates are `i32` in the source and unbounded
    here. */
module Deliveries {
  import opened Wrappers

  /** `Point`: a house on the grid, x growing to the east and y to the south. */
  datatype Point = Point(x: int, y: int)

  /** `Point += Point`: componentwise addition. */
  function Add(p: Point, q: Point): (r: Point)
    ensures r.x - p.x == q.x && r.y - p.y == q.y
  {
    Point(p.x + q.x, p.y + q.y)
  }

  /** Moves can be made in either order, and the origin moves nothing. */
  lemma AddProperties(p: Point, q: Point, s: Point)
    ensures Add(p, q) == Add(q, p)
    ensures Add(Add(p, q), s) == Add(p, Add(q, s))
    ensures Add(p, Point(0, 0)) == p
  {
  }

  /** `Direction`: one arrow of the instructions. */
  datatype Direction = North | South | East | West

  /** `Direction::from_char`: `None` where the source panics on an unknown character. */
  function FromChar(c: char): (r: Option<Direction>)
    ensures r.Some? <==> c == '^' || c == 'v' || c == '>' || c == '<'
    ensures r.Some? ==> ToChar(r.value) == c
  {
    match c
    case '^' => Some(North)
    case 'v' => Some(South)
    case '>' => Some(East)
    case '<' => Some(West)
    case _ => None
  }

  /** The arrow that stands for a direction. */
  function ToChar(d: Direction): char
  {
    match d
    case North => '^'
    case South => 'v'
    case East => '>'
    case West => '<'
  }

  /** Every direction reads back from its arrow. */
  lemma FromToChar(d: Direction)
    ensures FromChar(ToChar(d)) == Some(d)
  {
  }

  /** `Direction::movement`: one house in the direction of the arrow. */
  function Movement(d: Direction): (r: Point)
    ensures (r.x == 0) != (r.y == 0)
    ensures -1 <= r.x <= 1 && -1 <= r.y <= 1
  {
    match d
    case North => Point(0, -1)
    case South => Point(0, 1)
    case East => Point(1, 0)
    case West => Point(-1, 0)
  }

  /** North and south move along y, east and west along x, and no two arrows move alike. */
  lemma MovementAxes(d: Direction, e: Direction)
    ensures Movement(d).y < 0 <==> d == North
    ensures Movement(d).y > 0 <==> d == South
    ensures Movement(d).x > 0 <==> d == East
    ensures Movement(d).x < 0 <==> d == West
    ensures d != e ==> Movement(d) != Movement(e)
  {
  }

  /** Opposite arrows cancel out. */
  lemma OppositesCancel()
    ensures Add(Movement(North), Movement(South)) == Point(0, 0)
    ensures Add(Movement(East), Movement(West)) == Point(0, 0)
  {
  }

  /** `decode_directions`: one direction per character, in order; `None` where the source
      panics. */
  function DecodeDirections(input: string): (r: Option<seq<Direction>>)
    ensures r.Some? <==> forall i :: 0 <= i < |input| ==> FromChar(input[i]).Some?
    ensures r.Some? ==> (|r.value| == |input|
      && forall i :: 0 <= i < |input| ==> FromChar(input[i]) == Some(r.value[i]))
  {
    if input == [] then Some([])
    else
      var first := FromChar(input[0]);
      var rest := DecodeDirections(input[1..]);
      assert forall i :: 1 <= i < |input| ==> input[1..][i - 1] == input[i];
      if first.Some? && rest.Some? then Some([first.value] + rest.value) else None
  }

  /** The arrows of a list of directions. */
  function EncodeDirections(directions: seq<Direction>): (s: string)
    ensures |s| == |directions|
    ensures forall i :: 0 <= i < |s| ==> s[i] == ToChar(directions[i])
  {
    if directions == [] then "" else [ToChar(directions[0])] + EncodeDirections(directions[1..])
  }

  /** Every list of directions reads back from its arrows. */
  lemma DecodeEncode(directions: seq<Direction>)
    ensures DecodeDirections(EncodeDirections(directions)) == Some(directions)
  {
    var s := EncodeDirections(directions);
    forall i | 0 <= i < |s| ensures FromChar(s[i]) == Some(directions[i]) {
      FromToChar(directions[i]);
    }
    var r := DecodeDirections(s);
    assert r.value == directions;
  }

  /** Whose turn arrow `k` is when the arrows are handed out round-robin. */
  function Turn(k: nat, movers: nat): (t: nat)
    requires movers >= 1
    ensures t < movers
  {
    if k == 0 then 0
    else if Turn(k - 1, movers) + 1 == movers then 0
    else Turn(k - 1, movers) + 1
  }

  /** Division with remainder has only one answer. */
  lemma ModUnique(k: int, m: int, q: int, r: int)
    requires m >= 1 && 0 <= r < m && k == m * q + r
    ensures k % m == r
  {
    var q' := k / m;
    var r' := k % m;
    assert k == m * q' + r';
    if q > q' {
      assert m * q - m * q' == m * (q - q');
      MulAtLeast(m, q - q');
    } else if q < q' {
      assert m * q' - m * q == m * (q' - q);
      MulAtLeast(m, q' - q);
    }
  }

  lemma {:induction false} MulAtLeast(m: int, d: int)
    requires m >= 1 && d >= 1
    ensures m * d >= m
    decreases d
  {
    if d > 1 {
      MulAtLeast(m, d - 1);
      assert m * d == m * (d - 1) + m;
    }
  }

  /** The round-robin turn is the index modulo the number of movers, as the source computes it. */
  lemma {:induction false} TurnIsMod(k: nat, movers: nat)
    requires movers >= 1
    ensures Turn(k, movers) == k % movers
  {
    if k > 0 {
      TurnIsMod(k - 1, movers);
      ModStep(k, movers);
    }
  }

  /** Counting one further moves the remainder up by one, wrapping to 0 at `m`. */
  lemma ModStep(k: int, m: int)
    requires k >= 1 && m >= 1
    ensures k % m == if (k - 1) % m + 1 == m then 0 else (k - 1) % m + 1
  {
    var q := (k - 1) / m;
    var r := (k - 1) % m;
    assert k - 1 == m * q + r;
    if r + 1 == m {
      assert k == m * (q + 1) + 0;
      ModUnique(k, m, q + 1, 0);
    } else {
      ModUnique(k, m, q, r + 1);
    }
  }

  /** Where mover `m` stands after the first `k` arrows have been handed out in turn:
      arrow `i` goes to mover `Turn(i, movers)`. */
  ghost function Position(directions: seq<Direction>, movers: nat, m: nat, k: nat): Point
    requires movers >= 1 && k <= |directions|
  {
    if k == 0 then Point(0, 0)
    else if Turn(k - 1, movers) == m then Add(Position(directions, movers, m, k - 1), Movement(directions[k - 1]))
    else Position(directions, movers, m, k - 1)
  }

  /** The houses visited after the first `k` arrows: the origin and every house a mover
      stepped onto. */
  ghost function Visited(directions: seq<Direction>, movers: nat, k: nat): set<Point>
    requires movers >= 1 && k <= |directions|
  {
    if k == 0 then {Point(0, 0)}
    else Visited(directions, movers, k - 1) + {Position(directions, movers, Turn(k - 1, movers), k)}
  }

  /** `find_unique_locations`: every mover starts at the origin; arrow `index` moves mover
      `index % movers`, and every house stepped onto joins the set. The source only needs a
      mover when there is an arrow to follow. */
  method FindUniqueLocations(directions: seq<Direction>, movers: nat) returns (locations: set<Point>)
    requires movers >= 1
    ensures locations == Visited(directions, movers, |directions|)
  {
    locations := {Point(0, 0)};
    var points := seq(movers, _ => Point(0, 0));
    for index := 0 to |directions|
      invariant locations == Visited(directions, movers, index)
      invariant PositionsAt(directions, movers, points, index)
    {
      var m := index % movers;
      TurnIsMod(index, movers);
      NextPositions(directions, movers, points, index);
      var p := Add(points[m], Movement(directions[index]));
      points := points[m := p];
      locations := locations + {p};
    }
  }

  /** `points` holds every mover's position after the first `k` arrows. */
  ghost predicate PositionsAt(directions: seq<Direction>, movers: nat, points: seq<Point>, k: nat)
    requires movers >= 1 && k <= |directions|
  {
    |points| == movers && forall m :: 0 <= m < movers ==> points[m] == Position(directions, movers, m, k)
  }

  /** Following arrow `k` moves the mover whose turn it is and no other. */
  lemma NextPositions(directions: seq<Direction>, movers: nat, points: seq<Point>, k: nat)
    requires movers >= 1 && k < |directions|
    requires PositionsAt(directions, movers, points, k)
    ensures var m := Turn(k, movers);
      PositionsAt(directions, movers, points[m := Add(points[m], Movement(directions[k]))], k + 1)
    ensures var m := Turn(k, movers);
      Visited(directions, movers, k + 1)
        == Visited(directions, movers, k) + {Add(points[m], Movement(directions[k]))}
  {
    var m := Turn(k, movers);
    var after := points[m := Add(points[m], Movement(directions[k]))];
    forall n | 0 <= n < movers
      ensures after[n] == Position(directions, movers, n, k + 1)
    {
      assert (k + 1) - 1 == k;
    }
  }

  /** The hundreds of houses that can be visited: the origin always, and never more houses
      than arrows plus one. */
  lemma {:induction false} VisitedBounds(directions: seq<Direction>, movers: nat, k: nat)
    requires movers >= 1 && k <= |directions|
    ensures Point(0, 0) in Visited(directions, movers, k)
    ensures |Visited(directions, movers, k)| <= k + 1
  {
    if k > 0 {
      VisitedBounds(directions, movers, k - 1);
      var before := Visited(directions, movers, k - 1);
      var p := Position(directions, movers, Turn(k - 1, movers), k);
      assert |before + {p}| <= |before| + |{p}|;
    }
  }

  /** A house is visited exactly when it is the origin or the house that some arrow moved
      its mover onto. */
  lemma VisitedMeans(directions: seq<Direction>, movers: nat, k: nat, p: Point)
    requires movers >= 1 && k <= |directions|
    ensures p in Visited(directions, movers, k)
      <==> p == Point(0, 0) || exists i :: 0 <= i < k && p == Position(directions, movers, Turn(i, movers), i + 1)
  {
    if p in Visited(directions, movers, k) && p != Point(0, 0) {
      VisitedSound(directions, movers, k, p);
    }
    if exists i :: 0 <= i < k && p == Position(directions, movers, Turn(i, movers), i + 1) {
      var i :| 0 <= i < k && p == Position(directions, movers, Turn(i, movers), i + 1);
      VisitedComplete(directions, movers, k, i);
    }
    if p == Point(0, 0) {
      VisitedBounds(directions, movers, k);
    }
  }

  lemma {:induction false} VisitedSound(directions: seq<Direction>, movers: nat, k: nat, p: Point)
    requires movers >= 1 && k <= |directions|
    requires p in Visited(directions, movers, k) && p != Point(0, 0)
    ensures exists i :: 0 <= i < k && p == Position(directions, movers, Turn(i, movers), i + 1)
  {
    var q := Position(directions, movers, Turn(k - 1, movers), k);
    if p == q {
      assert (k - 1) + 1 == k;
      assert 0 <= k - 1 < k && p == Position(directions, movers, Turn(k - 1, movers), (k - 1) + 1);
    } else {
      VisitedSound(directions, movers, k - 1, p);
      var i :| 0 <= i < k - 1 && p == Position(directions, movers, Turn(i, movers), i + 1);
      assert 0 <= i < k;
    }
  }

  lemma {:induction false} VisitedComplete(directions: seq<Direction>, movers: nat, k: nat, i: nat)
    requires movers >= 1 && i < k <= |directions|
    ensures Position(directions, movers, Turn(i, movers), i + 1) in Visited(directions, movers, k)
    decreases k
  {
    if i < k - 1 {
      VisitedComplete(directions, movers, k - 1, i);
    }
  }

  /** The sum of the moves of a list of directions. */
  function Walk(directions: seq<Direction>): Point
  {
    if directions == [] then Point(0, 0)
    else Add(Walk(directions[..|directions| - 1]), Movement(directions[|directions| - 1]))
  }

  /** With one mover, its position is the walk of every arrow so far. */
  lemma {:induction false} SingleMover(directions: seq<Direction>, k: nat)
    requires k <= |directions|
    ensures Position(directions, 1, 0, k) == Walk(directions[..k])
  {
    if k > 0 {
      SingleMover(directions, k - 1);
      assert directions[..k][..k - 1] == directions[..k - 1];
    }
  }

  /** Mover `m` only moves on its own turns: arrows handed to the others leave it still. */
  lemma OtherTurnsStill(directions: seq<Direction>, movers: nat, m: nat, k: nat)
    requires movers >= 1 && k < |directions| && Turn(k, movers) != m
    ensures Position(directions, movers, m, k + 1) == Position(directions, movers, m, k)
  {
  }

  /** The unit tests of `+=`, `from_char` and `decode_directions`. */
  lemma DecodeExamples()
    ensures Add(Point(0, 1), Point(1, 1)) == Point(1, 2)
    ensures FromChar('>') == Some(East)
    ensures DecodeDirections("><^v") == Some([East, West, North, South])
  {
    DecodeEncode([East, West, North, South]);
    assert EncodeDirections([East, West, North, South]) == "><^v";
  }

  /** The unit test of `find_unique_locations` with one mover: ">" visits 2 houses. */
  method OneMoverExample()
  {
    var east := [East];
    var line := FindUniqueLocations(east, 1);
    EastWalk(east);
    assert |line| == 2;
  }

  /** The houses of the walk ">": the origin and the house east of it. */
  lemma EastWalk(ds: seq<Direction>)
    requires ds == [East]
    ensures Visited(ds, 1, 1) == {Point(0, 0), Point(1, 0)}
    ensures |Visited(ds, 1, 1)| == 2
  {
    assert Position(ds, 1, 0, 0) == Point(0, 0);
    assert Position(ds, 1, 0, 1) == Point(1, 0);
  }
}
