/** The light grid (src/bin/2015-06.rs): commands switch on, switch off or toggle every light
    of a rectangle of a grid, given by two opposite corners, both inclusive. The first rules
    keep each light on (1) or off (0); the second rules treat each light as a brightness. */
module Lights {
  import opened Wrappers

  /** `Action`. */
  datatype Action = TurnOn | TurnOff | Toggle

  /** `Action::from_str`: `None` stands for the "unknown action" error. */
  function ParseAction(s: string): (r: Option<Action>)
    ensures r.Some? <==> s == "turn on" || s == "turn off" || s == "toggle"
    ensures r.Some? ==> ShowAction(r.value) == s
  {
    if s == "turn on" then Some(TurnOn)
    else if s == "turn off" then Some(TurnOff)
    else if s == "toggle" then Some(Toggle)
    else None
  }

  /** The words that name an action in a command. */
  function ShowAction(a: Action): string
  {
    match a
    case TurnOn => "turn on"
    case TurnOff => "turn off"
    case Toggle => "toggle"
  }

  /** Every action reads back from its words. */
  lemma ParseShowAction(a: Action)
    ensures ParseAction(ShowAction(a)) == Some(a)
  {
  }

  /** `Command`: an action and two corners `(x, y)`, already read from its line. */
  datatype Command = Command(action: Action, from: (nat, nat), to: (nat, nat))

  /** The light `(x, y)` lies in the rectangle of the command, edges included. */
  predicate Covers(command: Command, x: nat, y: nat)
  {
    command.from.0 <= x <= command.to.0 && command.from.1 <= y <= command.to.1
  }

  /** The source indexes the grid at every covered light and panics when one is outside;
      a rectangle with an inverted range covers nothing and indexes nothing. */
  predicate Fits(command: Command, rows: nat, columns: nat)
  {
    command.from.0 <= command.to.0 && command.from.1 <= command.to.1 ==>
      command.to.0 < rows && command.to.1 < columns
  }

  /** What the first rules make of one light. */
  function Light1(action: Action, cell: nat): (r: nat)
    ensures r == 0 || r == 1
    ensures action == TurnOn ==> r == 1
    ensures action == TurnOff ==> r == 0
    ensures action == Toggle ==> (r == 1 <==> cell != 1)
  {
    match action
    case TurnOn => 1
    case TurnOff => 0
    case Toggle => if cell == 1 then 0 else 1
  }

  /** What the second rules make of one light: turning on adds one to its brightness,
      toggling adds two, and turning off takes one away without going below zero. */
  function Light2(action: Action, cell: nat): (r: nat)
    ensures action == TurnOn ==> r == cell + 1
    ensures action == Toggle ==> r == cell + 2
    ensures action == TurnOff ==> r + 1 == cell || (cell == 0 && r == 0)
    ensures action == TurnOff ==> r <= cell && (r == 0 <==> cell <= 1)
  {
    match action
    case TurnOn => cell + 1
    case TurnOff => if cell == 0 then 0 else cell - 1
    case Toggle => cell + 2
  }

  /** Toggling twice under the first rules gives back a light that was on or off. */
  lemma ToggleTwice(cell: nat)
    requires cell == 0 || cell == 1
    ensures Light1(Toggle, Light1(Toggle, cell)) == cell
  {
  }

  /** Under the second rules, turning a light off undoes turning it on, two turn-offs undo a
      toggle, and a toggle brightens as much as two turn-ons. */
  lemma OffUndoesOn(cell: nat)
    ensures Light2(TurnOff, Light2(TurnOn, cell)) == cell
    ensures Light2(TurnOff, Light2(TurnOff, Light2(Toggle, cell))) == cell
    ensures Light2(Toggle, cell) == Light2(TurnOn, Light2(TurnOn, cell))
  {
  }

  /** Every light of the grid is on (1) or off (0). */
  ghost predicate Binary(lights: array2<nat>)
    reads lights
  {
    forall x, y :: 0 <= x < lights.Length0 && 0 <= y < lights.Length1 ==> lights[x, y] <= 1
  }

  /** `apply_command_1`: the covered lights follow the first rules, row by row. */
  method ApplyCommand1(lights: array2<nat>, command: Command)
    requires Fits(command, lights.Length0, lights.Length1)
    modifies lights
    ensures forall x, y :: 0 <= x < lights.Length0 && 0 <= y < lights.Length1 ==>
      lights[x, y] == if Covers(command, x, y) then Light1(command.action, old(lights[x, y])) else old(lights[x, y])
    ensures old(Binary(lights)) ==> Binary(lights)
  {
    var x := command.from.0;
    while x <= command.to.0
      invariant command.from.0 <= x
      invariant forall i, j :: 0 <= i < lights.Length0 && 0 <= j < lights.Length1 ==>
        lights[i, j] == if Covers(command, i, j) && i < x then Light1(command.action, old(lights[i, j])) else old(lights[i, j])
      decreases command.to.0 + 1 - x
    {
      var y := command.from.1;
      while y <= command.to.1
        invariant command.from.1 <= y
        invariant forall i, j :: 0 <= i < lights.Length0 && 0 <= j < lights.Length1 ==>
          lights[i, j] == if Covers(command, i, j) && (i < x || (i == x && j < y)) then Light1(command.action, old(lights[i, j])) else old(lights[i, j])
        decreases command.to.1 + 1 - y
      {
        lights[x, y] := Light1(command.action, lights[x, y]);
        y := y + 1;
      }
      x := x + 1;
    }
  }

  /** `apply_command_2`: the covered lights follow the second rules, row by row. */
  method ApplyCommand2(lights: array2<nat>, command: Command)
    requires Fits(command, lights.Length0, lights.Length1)
    modifies lights
    ensures forall x, y :: 0 <= x < lights.Length0 && 0 <= y < lights.Length1 ==>
      lights[x, y] == if Covers(command, x, y) then Light2(command.action, old(lights[x, y])) else old(lights[x, y])
  {
    var x := command.from.0;
    while x <= command.to.0
      invariant command.from.0 <= x
      invariant forall i, j :: 0 <= i < lights.Length0 && 0 <= j < lights.Length1 ==>
        lights[i, j] == if Covers(command, i, j) && i < x then Light2(command.action, old(lights[i, j])) else old(lights[i, j])
      decreases command.to.0 + 1 - x
    {
      var y := command.from.1;
      while y <= command.to.1
        invariant command.from.1 <= y
        invariant forall i, j :: 0 <= i < lights.Length0 && 0 <= j < lights.Length1 ==>
          lights[i, j] == if Covers(command, i, j) && (i < x || (i == x && j < y)) then Light2(command.action, old(lights[i, j])) else old(lights[i, j])
        decreases command.to.1 + 1 - y
      {
        lights[x, y] := Light2(command.action, lights[x, y]);
        y := y + 1;
      }
      x := x + 1;
    }
  }

  /** The unit tests of `Action::from_str`, `apply_command_1` and `apply_command_2`:
      "toggle 1,2 through 3,4" on a dark 1000 by 1000 grid. */
  method ApplyExamples()
  {
    assert ParseAction("turn on") == Some(TurnOn);
    var command := Command(Toggle, (1, 2), (3, 4));
    var lights := new nat[1000, 1000]((x, y) => 0);
    ApplyCommand1(lights, command);
    assert lights[1, 2] == 1;
    var brightness := new nat[1000, 1000]((x, y) => 0);
    ApplyCommand2(brightness, command);
    assert brightness[1, 2] == 2;
  }
}
