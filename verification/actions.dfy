/**
 The handlers `go`, `look`, `get` and `inventory` of `TextAdventureGame`, the
 `quit` and fall-through branches of `play`, and one step of the loop:
 classify a line, then run its handler.

 What a handler prints is returned as a list of output lines.
 */
module Actions {
  import opened Text
  import opened Items
  import opened World
  import opened Commands

  /** The state after a command, the lines it printed, and whether the loop
      stops. */
  datatype Outcome = Outcome(state: State, output: seq<string>, halted: bool)

  /** The room the player stands in. */
  function Here(s: State): Room
    requires Valid(s)
  {
    s.rooms[s.current]
  }

  /** `go(direction)`: follow the exit if the current room has one under that
      exact name and describe the new room; otherwise say so and stay. */
  function Go(s: State, direction: string): (o: Outcome)
    requires Valid(s)
    ensures Valid(o.state) && !o.halted
    ensures o.state.inventory == s.inventory && o.state.rooms == s.rooms
    ensures direction in Here(s).exits ==>
      && o.state.current == Here(s).exits[direction]
      && o.output == [s.rooms[Here(s).exits[direction]].description]
    ensures direction !in Here(s).exits ==>
      o.state == s && o.output == ["There's no way to go " + direction + "."]
  {
    if direction in Here(s).exits then
      var next := s.(current := Here(s).exits[direction]);
      Outcome(next, [Here(next).description], false)
    else
      Outcome(s, ["There's no way to go " + direction + "."], false)
  }

  /** `look()`: describe the current room. */
  function Look(s: State): (o: Outcome)
    requires Valid(s)
    ensures o.state == s && !o.halted
    ensures o.output == [s.rooms[s.current].description]
  {
    Outcome(s, [Here(s).description], false)
  }

  /** `get(item)`: if the item lies in the current room, append it to the
      inventory and delete its first occurrence from the room's list;
      otherwise say it is not there. */
  function Get(s: State, item: string): (o: Outcome)
    requires Valid(s)
    ensures Valid(o.state) && !o.halted
    ensures o.state.current == s.current
    ensures SameGraph(s.rooms, o.state.rooms)
    ensures item in Here(s).items ==>
      && o.state.inventory == s.inventory + [item]
      && o.state.rooms[s.current].items
         == Here(s).items[..IndexOf(Here(s).items, item)] + Here(s).items[IndexOf(Here(s).items, item) + 1..]
      && (forall name :: name in s.rooms && name != s.current ==> o.state.rooms[name] == s.rooms[name])
      && o.output == ["You pick up the " + item + "."]
    ensures item !in Here(s).items ==>
      o.state == s && o.output == ["There's no " + item + " here."]
  {
    var here := Here(s);
    if item in here.items then
      var rooms := WithItems(s.rooms, s.current, RemoveFirst(here.items, item));
      Outcome(State(s.current, s.inventory + [item], rooms), ["You pick up the " + item + "."], false)
    else
      Outcome(s, ["There's no " + item + " here."], false)
  }

  /** The inventory lines printed under "Inventory:", one per item, in order. */
  function Listing(items: seq<string>): (lines: seq<string>)
    ensures |lines| == |items|
    ensures forall i :: 0 <= i < |items| ==> lines[i] == "  " + items[i]
  {
    if items == [] then [] else ["  " + items[0]] + Listing(items[1..])
  }

  /** `inventory()`: list what is carried, or say that nothing is. */
  function ShowInventory(s: State): (o: Outcome)
    ensures o.state == s && !o.halted
    ensures o.output == ["You're not carrying anything."] <==> s.inventory == []
    ensures s.inventory != [] ==>
      && |o.output| == |s.inventory| + 1
      && o.output[0] == "Inventory:"
      && forall i :: 0 <= i < |s.inventory| ==> o.output[i + 1] == "  " + s.inventory[i]
  {
    if s.inventory != [] then
      Outcome(s, ["Inventory:"] + Listing(s.inventory), false)
    else
      Outcome(s, ["You're not carrying anything."], false)
  }

  /** Run the handler a classified command selects. */
  function Exec(s: State, c: Command): (o: Outcome)
    requires Valid(s)
    ensures Valid(o.state)
    ensures o.halted <==> c.Quit?
    ensures SameGraph(s.rooms, o.state.rooms)
  {
    match c
    case Go(direction) => Go(s, direction)
    case Look => Look(s)
    case Get(item) => Get(s, item)
    case ShowInventory => ShowInventory(s)
    case Quit => Outcome(s, ["Goodbye!"], true)
    case Unrecognized => Outcome(s, ["I don't understand that command."], false)
  }

  /** One pass of the loop body of `play` on an already normalised line. */
  function Step(s: State, command: string): (o: Outcome)
    requires Valid(s)
    ensures Valid(o.state)
    ensures SameGraph(s.rooms, o.state.rooms)
    ensures o.halted <==> command == "quit"
    ensures StartsWith(command, "go") ==> o == Go(s, Argument(command, 3))
    ensures StartsWith(command, "get") ==> o == Get(s, Argument(command, 4))
    ensures command == "look" ==> o == Look(s)
    ensures command == "inventory" ==> o == ShowInventory(s)
    ensures command == "quit" ==> o.state == s && o.output == ["Goodbye!"]
    ensures Parse(command).Unrecognized? ==>
      o.state == s && o.output == ["I don't understand that command."]
  {
    Exec(s, Parse(command))
  }

  /** Picking an item up moves it, it neither copies nor loses it: the
      current room's list and the inventory together hold the same items
      before and after. */
  lemma GetConservesHere(s: State, item: string)
    requires Valid(s)
    ensures var o := Get(s, item);
      multiset(o.state.rooms[s.current].items) + multiset(o.state.inventory)
      == multiset(Here(s).items) + multiset(s.inventory)
  {
    var here := Here(s);
    if item in here.items {
      RemoveFirstMultiset(here.items, item);
    }
  }

  /** Picking an item up neither creates nor destroys an item anywhere in
      the world. */
  lemma GetConservesItems(s: State, item: string)
    requires Valid(s)
    ensures Holdings(Get(s, item).state) == Holdings(s)
  {
    var here := Here(s);
    if item in here.items {
      var after := RemoveFirst(here.items, item);
      var o := Get(s, item);
      assert o.state.rooms == WithItems(s.rooms, s.current, after);
      GetConservesHere(s, item);
      AllItemsWithItems(s.rooms, s.current, after);
      var rest := AllItems(s.rooms - {s.current});
      calc {
        Holdings(o.state);
        rest + multiset(after) + multiset(o.state.inventory);
        rest + (multiset(here.items) + multiset(s.inventory));
        Holdings(s);
      }
    }
  }

  /** No command creates or destroys an item. */
  lemma ExecConservesItems(s: State, c: Command)
    requires Valid(s)
    ensures Holdings(Exec(s, c).state) == Holdings(s)
  {
    match c
    case Get(item) => GetConservesItems(s, item);
    case _ =>
  }

  /** Taking an item that lay in the room once makes a second `get` of it
      fail; taking one that lay there several times leaves another copy. */
  lemma GetAgain(s: State, item: string)
    requires Valid(s) && item in Here(s).items
    ensures var o := Get(s, item);
      (Get(o.state, item).state == o.state) <==> Count(Here(s).items, item) == 1
  {
    var o := Get(s, item);
    RemoveFirstStillIn(Here(s).items, item);
    var again := Get(o.state, item);
    if item in Here(o.state).items {
      assert |again.state.inventory| == |o.state.inventory| + 1;
    }
  }
}
