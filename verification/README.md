# Text adventure interpreter — a Dafny model

This project models the command interpreter of the `TextAdventureGame` class
in `adventure.py`: the game state set up by `__init__`, the `play` loop that
reads a line, strips and lower-cases it and classifies it by an ordered
if/elif chain, and the handlers `go`, `look`, `get` and `inventory`, plus the
`quit` and fall-through branches of the loop.

The state is an immutable value:

- the current room, as the name it is filed under in the map's `rooms` table
  (exits name their targets the same way);
- the inventory, a list that may hold duplicates;
- the room table, whose per-room item lists `get` edits in place.

Everything the program prints is returned as a list of output lines. The
loop is a function over a finite sequence of input lines that stops right
after the first `quit`.

Modules, leaves first:

- `Text` (`text.dfy`): Python's `str.strip()`, `str.startswith`, `s[k:]` and
  `str.lower()`.
- `Items` (`items.dfy`): `list.index` and `list.remove`, which deletes the
  first occurrence.
- `World` (`world.dfy`): rooms, the map, the state, the well-formedness
  invariant, `__init__`, and the bag of every item lying in a room.
- `Commands` (`commands.dfy`): the dispatch chain of `play`.
- `Actions` (`actions.dfy`): the handlers and one loop step.
- `Session` (`session.dfy`): the loop of `play`.

The properties proved:

- Dispatch is ordered and prefix based. `"gone"` moves along the exit named
  `"e"`, because `"gone"[3:]` is `"e"`. A bare `"go"` asks for the exit `""`.
  `"getaway"` picks up `"way"`.
- `go` lands exactly on the exit's target, or changes nothing.
- `get` appends the item to the inventory and removes its first occurrence
  from the current room. It moves the item and never copies or loses it.
- `look`, `inventory` and unrecognised lines change nothing. `inventory`
  prints "not carrying anything" exactly when the inventory is empty.
- `quit` is terminal: no line after it is read.
- No step ever changes the room graph, so a well-formed map stays well
  formed.

`adventure.py` neither defines nor imports `load_map`, so the model assumes
a well-formed map: the start room is in the table and every exit leads to a
room of the table (`World.WellFormedMap`).

`adventure.py` has no verb or direction abbreviations, no `drop`, no win or
lose conditions and no prefix matching of item names; its inventory is a
list with `append`. The model has none of these either.

## Model

| member | source | states |
|---|---|---|
| `Text.Strip` | adventure.py:11-17 | the result is an infix of the input with only whitespace around it, and it neither starts nor ends with whitespace |
| `Text.StrippedUnique` | adventure.py:11-17 | at most one string meets that description of `strip()`, so `Strip` is pinned down by it |
| `Text.StripIdempotent` | adventure.py:11-17 | stripping an already stripped argument changes nothing |
| `Text.StripKeeps` | adventure.py:13-17 | a string with no whitespace at either end is its own `strip()` |
| `Text.Normalize` | adventure.py:11 | the normalised line is the `strip()` of the lower-cased line (it meets `StrippedAt` for it, which admits one result); it has no ASCII capital letter, no surrounding whitespace, and is no longer than the raw line |
| `Text.LowerStrippedAt` | adventure.py:11 | lower-casing a string keeps its whitespace where it was, so the lowered kept part is the kept part of the lowered string |
| `Text.LowerStrip` | adventure.py:11 | `line.strip().lower()` is the `strip()` of `line.lower()` |
| `Text.NormalizeIdempotent` | adventure.py:11 | normalising an already normalised line changes nothing |
| `Text.Lower` | adventure.py:11 | lower-casing keeps the length and maps each character on its own |
| `Text.SliceFrom` | adventure.py:13-17 | for an offset within the line, the line is its first `k` characters followed by the result; for an offset at or past the end the result is empty, as `command[3:]` and `command[4:]` are |
| `Commands.Argument` | adventure.py:13-17 | the argument is the `strip()` of everything after the fixed offset, and it is empty when the line is too short |
| `Commands.Parse` | adventure.py:12-24 | a line is a move iff it starts with "go", and a pickup iff it starts with "get"; look, inventory and quit need the whole line to match; everything else is unrecognised; the argument is cut at offset 3 or 4 |
| `Commands.TestsExclusive` | adventure.py:12-20 | a line that passes the "go" test fails every later test, and one that passes the "get" test fails the exact-match tests |
| `Commands.ParseGone` | adventure.py:12-13 | "gone" is a move along the exit named "e" |
| `Commands.ParseBareGo` | adventure.py:12-13 | a bare "go" is a move along the exit named "" |
| `Commands.ParseGetaway` | adventure.py:16-17 | "getaway" is a pickup of "way" |
| `Commands.ParseGoDirection` | adventure.py:12-13 | "go " followed by a direction without surrounding whitespace moves in exactly that direction |
| `Commands.ParseGetItem` | adventure.py:16-17 | "get " followed by a name without surrounding whitespace picks up exactly that name |
| `Items.IndexOf` | adventure.py:39 | the index holds the item and no earlier position does |
| `Items.RemoveFirst` | adventure.py:39 | `remove` deletes exactly the first occurrence and keeps every other element in order |
| `Items.RemoveFirstMultiset` | adventure.py:37-39 | removal takes one copy of the item out of the list's bag of elements and shortens it by one |
| `Items.RemoveFirstStillIn` | adventure.py:37-39 | after one removal the item is still in the list iff it occurred more than once |
| `World.Init` | adventure.py:2-6 | the game starts in the map's start room with an empty inventory and the map's own rooms, and the state is valid |
| `World.SameGraphKeepsExitsClosed` | adventure.py:27-28 | changing only item lists keeps every exit pointing into the table |
| `World.WithItems` | adventure.py:39 | editing one room's item list keeps the graph, changes that list and no other room |
| `World.AllItemsSplit` | adventure.py:37-39 | the items lying in all rooms are one room's items plus those of the other rooms, whichever room is taken first |
| `World.AllItemsWithItems` | adventure.py:37-39 | replacing one room's item list changes the world's room items by exactly that list |
| `Actions.Go` | adventure.py:26-31 | with a matching exit the current room becomes exactly the exit's target and that room is described; otherwise the state is unchanged and "no way" is printed; the inventory and all rooms never change |
| `Actions.Look` | adventure.py:33-34 | the current room's description is printed and nothing changes |
| `Actions.Get` | adventure.py:36-42 | with the item present it is appended to the inventory, its first occurrence leaves the current room, and every other room is untouched; otherwise nothing changes; the graph is always kept |
| `Actions.GetConservesHere` | adventure.py:37-39 | the current room's items and the inventory together hold the same bag of items before and after a `get` |
| `Actions.GetConservesItems` | adventure.py:36-42 | the items of all rooms plus the inventory are the same bag before and after a `get` |
| `Actions.GetAgain` | adventure.py:36-42 | after a successful `get`, a second `get` of the same item fails iff the room held exactly one copy |
| `Actions.Listing` | adventure.py:47-48 | one indented line per inventory item, in inventory order |
| `Actions.ShowInventory` | adventure.py:44-50 | "not carrying anything" is printed iff the inventory is empty; otherwise a header and one line per item, in order; nothing changes |
| `Actions.Exec` | adventure.py:12-24 | a command keeps the state valid and the graph unchanged, and halts the loop iff it is `quit` |
| `Actions.Step` | adventure.py:12-24 | a line starting with "go" runs `go` on the argument after offset 3, even when it would also match a later test; one starting with "get" runs `get` on the argument after offset 4; look and inventory run their handlers; quit halts with the state unchanged; any other line changes nothing |
| `Actions.ExecConservesItems` | adventure.py:12-42 | no command creates or destroys an item |
| `Session.ReadAll` | adventure.py:11-24 | every input line is normalised and then classified, in input order |
| `Session.Run` | adventure.py:10-24 | running any sequence of commands from a valid state ends in a valid state: the player stands in a room of the table and no exit dangles (what it halts on and what it keeps is stated by the `Session.Run*` lemmas) |
| `Session.Then` | adventure.py:20-24 | continuing the loop after one handled command, whether it stopped or goes on, keeps the state valid |
| `Session.Play` | adventure.py:8-24 | the session first prints the start room's description and ends in a valid state |
| `Session.RunHaltsIffQuit` | adventure.py:20-22 | a run halts iff one of its commands is `quit`, and then the last line printed is "Goodbye!" |
| `Session.RunIgnoresAfterQuit` | adventure.py:20-22 | once a run has halted, appending further commands changes nothing |
| `Session.RunAppend` | adventure.py:10-24 | a run that has not halted continues from the state it reached, and its output is followed by the output of the rest |
| `Session.RunKeepsGraph` | adventure.py:10-31 | no run adds or removes a room or changes a description or an exit |
| `Session.RunConservesItems` | adventure.py:10-42 | over a whole run the items of all rooms plus the inventory stay the same bag |
| `Session.ReadAllAppend` | adventure.py:10-11 | classifying two batches of lines is classifying their concatenation |
| `Session.ReadAllQuit` | adventure.py:11-20 | a classified line is `quit` iff the line, stripped and lower-cased, is the word "quit" |
| `Session.PlayHaltsIffQuit` | adventure.py:8-22 | the session stops iff some input line normalises to "quit", and its last printed line is then "Goodbye!" |
| `Session.PlayIgnoresAfterQuit` | adventure.py:10-22 | once the session has stopped, no later input line makes any difference |

## Left out

- `load_map` and the construction of `Map` and `Room` (adventure.py:4) are
  not part of this model; `adventure.py` neither defines nor imports
  `load_map`. Their results are taken as given. A well-formed map is a
  precondition (`World.WellFormedMap`).
- Terminal I/O is not modelled. The `input` prompt text is left out. Each
  `print` becomes a returned output line.
- End of input is not modelled as an error. Python's `input()` raises
  `EOFError` when the lines run out. The model's loop just ends, unhalted.
- The room object is not modelled. `current_room` holds the room object,
  while the model holds the name it is filed under in `map.rooms`. After a
  move this is the same room, because adventure.py:28 looks the target up
  in `map.rooms` by the exit's name.
- World.Init: assumes `map.start_room` is the entry of `map.rooms` filed
  under `startRoom`. adventure.py:5 takes `map.start_room` as it comes, and
  nothing in the code shows it is one of the table's rooms. Were it a
  separate object, a `get` before the first move would edit a list the table
  never sees; the model edits `rooms[startRoom]` instead.
- The unfinished `__main__` block (adventure.py:53-55) is process plumbing
  and is left out.
- test.py is not modelled. It calls `quit` and `process_command` methods
  that `adventure.py` does not define.
- Text.Lower: lower-cases only the ASCII letters `A`-`Z`. Python's
  `str.lower()` also folds non-ASCII letters, some into several characters,
  and Unicode case tables are out of scope.
- Text.IsSpace: lists the whitespace characters of the Basic Multilingual
  Plane that Python's `str.isspace()` accepts, which is the set `str.strip()`
  removes. It is written out by hand rather than derived from the Unicode
  database.
