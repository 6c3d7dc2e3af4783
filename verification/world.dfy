/**
 The game's state: the room graph produced by the map loader and the
 player's position and inventory (`TextAdventureGame.__init__`).

 The current room is kept as the name under which it is filed in the map's
 `rooms` table, which is also how exits name their targets.
 */
module World {

  /** One room: its description, its exits (direction -> target room name)
      and the list of items lying in it, duplicates allowed. */
  datatype Room = Room(description: string, exits: map<string, string>, items: seq<string>)

  /** What the map loader hands over: the rooms by name and the start room. */
  datatype GameMap = GameMap(startRoom: string, rooms: map<string, Room>)

  /** The mutable part of a session. `rooms` is the map's own table, because
      picking an item up edits the room's item list in place. */
  datatype State = State(current: string, inventory: seq<string>, rooms: map<string, Room>)

  /** Every exit of every room leads to a room of the table. */
  predicate ExitsClosed(rooms: map<string, Room>) {
    forall name, dir :: name in rooms && dir in rooms[name].exits ==> rooms[name].exits[dir] in rooms
  }

  /** What the loader is trusted to guarantee: the start room exists and no
      exit dangles. */
  predicate WellFormedMap(m: GameMap) {
    m.startRoom in m.rooms && ExitsClosed(m.rooms)
  }

  /** The invariant of a running session: the player stands in a room of the
      table and no exit dangles. */
  predicate Valid(s: State) {
    s.current in s.rooms && ExitsClosed(s.rooms)
  }

  /** Two room tables describe the same graph: same rooms, same descriptions,
      same exits. Only item lists may differ. */
  predicate SameGraph(a: map<string, Room>, b: map<string, Room>) {
    && a.Keys == b.Keys
    && forall name :: name in a ==> a[name].description == b[name].description && a[name].exits == b[name].exits
  }

  /** A graph-preserving edit keeps every exit in the table. */
  lemma SameGraphKeepsExitsClosed(a: map<string, Room>, b: map<string, Room>)
    requires SameGraph(a, b) && ExitsClosed(a)
    ensures ExitsClosed(b)
  {
    forall name, dir | name in b && dir in b[name].exits
      ensures b[name].exits[dir] in b
    {
      assert a[name].exits == b[name].exits;
    }
  }

  /** Replacing one room's item list keeps the graph. */
  function WithItems(rooms: map<string, Room>, name: string, items: seq<string>): (r: map<string, Room>)
    requires name in rooms
    ensures SameGraph(rooms, r)
    ensures ExitsClosed(rooms) ==> ExitsClosed(r)
    ensures r[name].items == items
    ensures forall other :: other in rooms && other != name ==> r[other] == rooms[other]
  {
    var r := rooms[name := rooms[name].(items := items)];
    if ExitsClosed(rooms) then
      SameGraphKeepsExitsClosed(rooms, r);
      r
    else r
  }

  /** `TextAdventureGame.__init__`: start in the map's start room with empty
      hands. */
  function Init(m: GameMap): (s: State)
    requires WellFormedMap(m)
    ensures Valid(s)
    ensures s.current == m.startRoom && s.inventory == [] && s.rooms == m.rooms
  {
    State(m.startRoom, [], m.rooms)
  }

  /** Some room name of a non-empty table. */
  ghost function Pick(names: set<string>): (name: string)
    requires names != {}
    ensures name in names
  {
    var name :| name in names; name
  }

  /** Every item lying in some room, counted with multiplicity. */
  ghost function AllItems(rooms: map<string, Room>): multiset<string>
    decreases |rooms|
  {
    if rooms == map[] then multiset{}
    else
      var name := Pick(rooms.Keys);
      assert |rooms - {name}| < |rooms| by {
        assert (rooms - {name}).Keys == rooms.Keys - {name};
      }
      multiset(rooms[name].items) + AllItems(rooms - {name})
  }

  /** The rooms' items can be summed starting from any room, not only the
      one `AllItems` happens to pick. */
  lemma {:induction false} AllItemsSplit(rooms: map<string, Room>, name: string)
    requires name in rooms
    ensures AllItems(rooms) == multiset(rooms[name].items) + AllItems(rooms - {name})
    decreases |rooms|
  {
    var first := Pick(rooms.Keys);
    if first != name {
      var rest := rooms - {first};
      assert (rooms - {first}).Keys == rooms.Keys - {first};
      assert name in rest && rest[name] == rooms[name];
      AllItemsSplit(rest, name);
      var both := rest - {name};
      assert both == (rooms - {name}) - {first};
      assert (rooms - {name}).Keys == rooms.Keys - {name};
      assert first in rooms - {name};
      AllItemsSplit(rooms - {name}, first);
    }
  }

  /** Replacing one room's item list changes the rooms' items by exactly
      the difference between that room's old and new lists. */
  lemma AllItemsWithItems(rooms: map<string, Room>, name: string, items: seq<string>)
    requires name in rooms
    ensures AllItems(WithItems(rooms, name, items)) == AllItems(rooms - {name}) + multiset(items)
    ensures AllItems(rooms) == AllItems(rooms - {name}) + multiset(rooms[name].items)
  {
    var updated := WithItems(rooms, name, items);
    AllItemsSplit(rooms, name);
    AllItemsSplit(updated, name);
    assert updated - {name} == rooms - {name};
  }

  /** Everything in the world: the rooms' items and the player's. */
  ghost function Holdings(s: State): multiset<string> {
    AllItems(s.rooms) + multiset(s.inventory)
  }
}
