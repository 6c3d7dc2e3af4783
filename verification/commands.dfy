/**
 The dispatch chain of `TextAdventureGame.play`: an already stripped and
 lower-cased line is classified by an ordered chain of tests, two of which
 are prefix tests, and the argument is cut at a fixed offset.
 */
module Commands {
  import opened Text

  /** What one line of input asks for. */
  datatype Command =
    | Go(direction: string)
    | Look
    | Get(item: string)
    | ShowInventory
    | Quit
    | Unrecognized

  /** The argument of a verb that was matched as a prefix: everything from
      the fixed offset on, stripped. */
  function Argument(command: string, offset: nat): (arg: string)
    ensures exists i: nat :: StrippedAt(SliceFrom(command, offset), arg, i)
    ensures |arg| + offset <= |command| || arg == []
  {
    Strip(SliceFrom(command, offset))
  }

  /** The if/elif chain of `play`. The first test that matches wins, so a
      line that starts with "go" is a movement whatever follows, and
      "look", "inventory" and "quit" must match the whole line. */
  function Parse(command: string): (c: Command)
    ensures c.Go? <==> StartsWith(command, "go")
    ensures c.Look? <==> command == "look"
    ensures c.Get? <==> StartsWith(command, "get")
    ensures c.ShowInventory? <==> command == "inventory"
    ensures c.Quit? <==> command == "quit"
    ensures c.Unrecognized? <==>
      && !StartsWith(command, "go") && !StartsWith(command, "get")
      && command != "look" && command != "inventory" && command != "quit"
    ensures c.Go? ==> c.direction == Argument(command, 3)
    ensures c.Get? ==> c.item == Argument(command, 4)
  {
    TestsExclusive(command);
    if StartsWith(command, "go") then Go(Argument(command, 3))
    else if command == "look" then Look
    else if StartsWith(command, "get") then Get(Argument(command, 4))
    else if command == "inventory" then ShowInventory
    else if command == "quit" then Quit
    else Unrecognized
  }

  /** The five tests of the chain never overlap except through the two
      prefix tests, and those two exclude each other too ("go" and "get"
      differ in their second letter). */
  lemma TestsExclusive(command: string)
    ensures StartsWith(command, "go") ==>
      !StartsWith(command, "get") && command != "look" && command != "inventory" && command != "quit"
    ensures StartsWith(command, "get") ==>
      command != "look" && command != "inventory" && command != "quit"
  {
    if StartsWith(command, "go") {
      StartsWithAt(command, "go", 0);
      StartsWithAt(command, "go", 1);
      if StartsWith(command, "get") {
        StartsWithAt(command, "get", 1);
      }
    }
    if StartsWith(command, "get") {
      StartsWithAt(command, "get", 0);
    }
  }

  /** The offset does not check what follows the verb: "gone" is a move
      along the exit named "e", the one character left after offset 3. */
  lemma ParseGone()
    ensures Parse("gone") == Go("e")
  {
    assert "gone"[..2] == "go";
    assert SliceFrom("gone", 3) == "e";
    StripKeeps("e");
  }

  /** A bare "go" has an empty direction. */
  lemma ParseBareGo()
    ensures Parse("go") == Go("")
  {
    assert "go"[..2] == "go";
    StripKeeps("");
  }

  /** "getaway" picks up an item named "way": the offset 4 skips the "a". */
  lemma ParseGetaway()
    ensures Parse("getaway") == Get("way")
  {
    assert "getaway"[..3] == "get";
    assert SliceFrom("getaway", 4) == "way";
    StripKeeps("way");
  }

  /** "get" with a space and an item name picks up exactly that name. */
  lemma ParseGetItem(item: string)
    requires item != [] && !IsSpace(item[0]) && !IsSpace(item[|item| - 1])
    ensures Parse("get " + item) == Get(item)
  {
    var command := "get " + item;
    assert command[..3] == "get";
    assert SliceFrom(command, 4) == item;
    StripKeeps(item);
  }

  /** "go" with a space and a direction walks in exactly that direction. */
  lemma ParseGoDirection(direction: string)
    requires direction != [] && !IsSpace(direction[0]) && !IsSpace(direction[|direction| - 1])
    ensures Parse("go " + direction) == Go(direction)
  {
    var command := "go " + direction;
    assert StartsWith(command, "go");
    assert SliceFrom(command, 3) == direction;
    StripKeeps(direction);
  }
}
