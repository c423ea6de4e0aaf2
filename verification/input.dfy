/** The keyboard bindings of src/Input.ts as a pure table from a key name to
    the action it issues. */
module Input {
  import opened Options
  import opened Entities

  /** What a key press asks for: a steering command for the player, the
      player's dash, or pausing the game. */
  datatype Action = Steer(command: Command) | Dash | PauseGame

  /** The ten keys the handler reacts to. */
  const BoundKeys: set<string> := {"ArrowLeft", "a", "ArrowRight", "d", "w", "ArrowUp", "s", "ArrowDown", " ", "Escape"}

  /** The `keydown` switch.  Note that "w" and "ArrowUp" issue `MoveDown`,
      which points toward smaller `y` (up the canvas), and "s"/"ArrowDown"
      issue `MoveUp`.  Exactly the bound keys do anything, and only the
      eight arrow and letter keys steer. */
  function KeyAction(key: string): (a: Option<Action>)
    ensures a.Some? <==> key in BoundKeys
    ensures (a.Some? && a.value.Steer?) <==> key in BoundKeys - {" ", "Escape"}
  {
    if key == "ArrowLeft" || key == "a" then Some(Steer(MoveLeft))
    else if key == "ArrowRight" || key == "d" then Some(Steer(MoveRight))
    else if key == "w" || key == "ArrowUp" then Some(Steer(MoveDown))
    else if key == "s" || key == "ArrowDown" then Some(Steer(MoveUp))
    else if key == " " then Some(Dash)
    else if key == "Escape" then Some(PauseGame)
    else None
  }

  /** The bindings as a table of (key, action) pairs. */
  const Bindings: seq<(string, Action)> := [
    ("ArrowLeft", Steer(MoveLeft)), ("a", Steer(MoveLeft)),
    ("ArrowRight", Steer(MoveRight)), ("d", Steer(MoveRight)),
    ("w", Steer(MoveDown)), ("ArrowUp", Steer(MoveDown)),
    ("s", Steer(MoveUp)), ("ArrowDown", Steer(MoveUp)),
    (" ", Dash), ("Escape", PauseGame)
  ]

  /** The action of the first row at or after `i` whose key is `key`, if any. */
  function LookupFrom(table: seq<(string, Action)>, key: string, i: nat): (a: Option<Action>)
    ensures a.Some? ==> i < |table| && (key, a.value) in table[i..]
    ensures (exists j :: i <= j < |table| && table[j].0 == key) ==> a.Some?
    ensures a.Some? ==> exists j :: i <= j < |table| && table[j] == (key, a.value) &&
                                    forall k :: i <= k < j ==> table[k].0 != key
    decreases |table| - i
  {
    if i >= |table| then None
    else if table[i].0 == key then Some(table[i].1)
    else LookupFrom(table, key, i + 1)
  }

  /** The action the first row for `key` gives, if any. */
  function Lookup(table: seq<(string, Action)>, key: string): (a: Option<Action>)
    ensures a.Some? ==> (key, a.value) in table
    ensures (exists j :: 0 <= j < |table| && table[j].0 == key) ==> a.Some?
    ensures a.Some? ==> exists j :: 0 <= j < |table| && table[j] == (key, a.value) &&
                                    forall k :: 0 <= k < j ==> table[k].0 != key
  {
    assert table[0..] == table;
    LookupFrom(table, key, 0)
  }

  /** The switch and the table agree on every key: two keys per direction,
      space and Escape, and no command for any other key. */
  lemma KeyActionMatchesBindings(key: string)
    ensures KeyAction(key) == Lookup(Bindings, key)
  {
    BindingsHead(key);
  }

  /** The whole table, unfolded row by row. */
  lemma BindingsHead(key: string)
    ensures LookupFrom(Bindings, key, 0) ==
              if key == "ArrowLeft" || key == "a" then Some(Steer(MoveLeft))
              else if key == "ArrowRight" || key == "d" then Some(Steer(MoveRight))
              else if key == "w" || key == "ArrowUp" then Some(Steer(MoveDown))
              else if key == "s" || key == "ArrowDown" then Some(Steer(MoveUp))
              else if key == " " then Some(Dash)
              else if key == "Escape" then Some(PauseGame)
              else None
  {
    var t := Bindings;
    BindingsMiddle(key);
    assert LookupFrom(t, key, 0) == if key == "ArrowLeft" then Some(Steer(MoveLeft)) else LookupFrom(t, key, 1);
    assert LookupFrom(t, key, 1) == if key == "a" then Some(Steer(MoveLeft)) else LookupFrom(t, key, 2);
  }

  /** The table from "ArrowRight" on. */
  lemma BindingsMiddle(key: string)
    ensures LookupFrom(Bindings, key, 2) ==
              if key == "ArrowRight" || key == "d" then Some(Steer(MoveRight))
              else if key == "w" || key == "ArrowUp" then Some(Steer(MoveDown))
              else if key == "s" || key == "ArrowDown" then Some(Steer(MoveUp))
              else if key == " " then Some(Dash)
              else if key == "Escape" then Some(PauseGame)
              else None
  {
    var t := Bindings;
    BindingsTail(key);
    assert LookupFrom(t, key, 2) == if key == "ArrowRight" then Some(Steer(MoveRight)) else LookupFrom(t, key, 3);
    assert LookupFrom(t, key, 3) == if key == "d" then Some(Steer(MoveRight)) else LookupFrom(t, key, 4);
    assert LookupFrom(t, key, 4) == if key == "w" then Some(Steer(MoveDown)) else LookupFrom(t, key, 5);
  }

  /** The table from "ArrowUp" on. */
  lemma BindingsTail(key: string)
    ensures LookupFrom(Bindings, key, 5) ==
              if key == "ArrowUp" then Some(Steer(MoveDown))
              else if key == "s" || key == "ArrowDown" then Some(Steer(MoveUp))
              else if key == " " then Some(Dash)
              else if key == "Escape" then Some(PauseGame)
              else None
  {
    var t := Bindings;
    assert LookupFrom(t, key, 5) == if key == "ArrowUp" then Some(Steer(MoveDown)) else LookupFrom(t, key, 6);
    assert LookupFrom(t, key, 6) == if key == "s" then Some(Steer(MoveUp)) else LookupFrom(t, key, 7);
    assert LookupFrom(t, key, 7) == if key == "ArrowDown" then Some(Steer(MoveUp)) else LookupFrom(t, key, 8);
    assert LookupFrom(t, key, 8) == if key == " " then Some(Dash) else LookupFrom(t, key, 9);
    assert LookupFrom(t, key, 9) == if key == "Escape" then Some(PauseGame) else LookupFrom(t, key, 10);
  }

  /** Exactly "ArrowLeft" and "a" steer left, and exactly "w" and "ArrowUp"
      steer toward smaller `y`. */
  lemma SteeringKeys(key: string)
    ensures KeyAction(key) == Some(Steer(MoveLeft)) <==> key == "ArrowLeft" || key == "a"
    ensures KeyAction(key) == Some(Steer(MoveRight)) <==> key == "ArrowRight" || key == "d"
    ensures KeyAction(key) == Some(Steer(MoveDown)) <==> key == "w" || key == "ArrowUp"
    ensures KeyAction(key) == Some(Steer(MoveUp)) <==> key == "s" || key == "ArrowDown"
    ensures KeyAction(key) == Some(Dash) <==> key == " "
    ensures KeyAction(key) == Some(PauseGame) <==> key == "Escape"
  {
  }
}
