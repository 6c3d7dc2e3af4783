/**
 The loop of `TextAdventureGame.play` over a finite sequence of input
 lines: describe the start room, then normalise and dispatch one line at a
 time until a line reads "quit".
 */
module Session {
  import opened Text
  import opened World
  import opened Commands
  import opened Actions

  /** The classified lines, in input order. */
  function ReadAll(lines: seq<string>): (cs: seq<Command>)
    ensures |cs| == |lines|
    ensures forall i :: 0 <= i < |lines| ==> cs[i] == Parse(Normalize(lines[i]))
  {
    if lines == [] then [] else [Parse(Normalize(lines[0]))] + ReadAll(lines[1..])
  }

  /** The loop after the opening description, over the classified lines:
      run each command in turn, and stop right after the first "quit". A run
      that ends without "quit" has simply used up its input. */
  function Run(s: State, cs: seq<Command>): (o: Outcome)
    requires Valid(s)
    ensures Valid(o.state)
    decreases |cs|, 1
  {
    if cs == [] then Outcome(s, [], false)
    else Then(Exec(s, cs[0]), cs[1..])
  }

  /** The rest of the loop after one command was handled: stop if it was
      "quit", otherwise go on with the remaining commands. */
  function Then(first: Outcome, rest: seq<Command>): (o: Outcome)
    requires Valid(first.state)
    ensures Valid(o.state)
    decreases |rest| + 1, 0
  {
    if first.halted then first
    else
      var r := Run(first.state, rest);
      Outcome(r.state, first.output + r.output, r.halted)
  }

  /** `play()`: print the start room's description, then run the loop on
      the input lines. */
  function Play(m: GameMap, lines: seq<string>): (o: Outcome)
    requires WellFormedMap(m)
    ensures Valid(o.state)
    ensures o.output != [] && o.output[0] == m.rooms[m.startRoom].description
  {
    var o := Run(Init(m), ReadAll(lines));
    Outcome(o.state, [m.rooms[m.startRoom].description] + o.output, o.halted)
  }

  /** A run halts exactly when one of its commands is "quit", and then the
      last line it printed is the farewell. */
  lemma {:induction false} RunHaltsIffQuit(s: State, cs: seq<Command>)
    requires Valid(s)
    ensures Run(s, cs).halted <==> Quit in cs
    ensures Run(s, cs).halted ==> Run(s, cs).output != [] && Run(s, cs).output[|Run(s, cs).output| - 1] == "Goodbye!"
    decreases |cs|
  {
    if cs != [] {
      var first := Exec(s, cs[0]);
      assert cs == [cs[0]] + cs[1..];
      if !first.halted {
        RunHaltsIffQuit(first.state, cs[1..]);
      }
    }
  }

  /** "quit" is terminal: once a run has halted, no command after it runs. */
  lemma {:induction false} RunIgnoresAfterQuit(s: State, cs: seq<Command>, more: seq<Command>)
    requires Valid(s) && Run(s, cs).halted
    ensures Run(s, cs + more) == Run(s, cs)
    decreases |cs|
  {
    var all := cs + more;
    assert all[0] == cs[0];
    assert all[1..] == cs[1..] + more;
    var first := Exec(s, cs[0]);
    if !first.halted {
      RunIgnoresAfterQuit(first.state, cs[1..], more);
    }
  }

  /** Input can be fed in two parts: a run that has not halted continues
      from the state it reached, and its output is followed by the rest. */
  lemma {:induction false} RunAppend(s: State, cs: seq<Command>, more: seq<Command>)
    requires Valid(s) && !Run(s, cs).halted
    ensures var a := Run(s, cs);
      var b := Run(a.state, more);
      Run(s, cs + more) == Outcome(b.state, a.output + b.output, b.halted)
    decreases |cs|
  {
    if cs == [] {
      assert cs + more == more;
    } else {
      var all := cs + more;
      assert all[0] == cs[0];
      assert all[1..] == cs[1..] + more;
      var first := Exec(s, cs[0]);
      var r := Run(first.state, cs[1..]);
      RunAppend(first.state, cs[1..], more);
      var b := Run(r.state, more);
      assert first.output + (r.output + b.output) == (first.output + r.output) + b.output;
    }
  }

  /** No run adds or removes a room, or changes a description or an exit. */
  lemma {:induction false} RunKeepsGraph(s: State, cs: seq<Command>)
    requires Valid(s)
    ensures SameGraph(s.rooms, Run(s, cs).state.rooms)
    decreases |cs|
  {
    if cs != [] {
      var first := Exec(s, cs[0]);
      if !first.halted {
        RunKeepsGraph(first.state, cs[1..]);
      }
    }
  }

  /** Over a whole run items only move: every item in the world at the start
      is still in some room or in the inventory at the end. */
  lemma {:induction false} RunConservesItems(s: State, cs: seq<Command>)
    requires Valid(s)
    ensures Holdings(Run(s, cs).state) == Holdings(s)
    decreases |cs|
  {
    if cs != [] {
      var first := Exec(s, cs[0]);
      ExecConservesItems(s, cs[0]);
      if !first.halted {
        RunConservesItems(first.state, cs[1..]);
      }
    }
  }

  /** Classifying a concatenation classifies each part. */
  lemma {:induction false} ReadAllAppend(lines: seq<string>, more: seq<string>)
    ensures ReadAll(lines + more) == ReadAll(lines) + ReadAll(more)
  {
    if lines == [] {
      assert lines + more == more;
    } else {
      var all := lines + more;
      assert all[0] == lines[0];
      assert all[1..] == lines[1..] + more;
      ReadAllAppend(lines[1..], more);
    }
  }

  /** A classified line is a "quit" exactly when the line, stripped and
      lower-cased, is the word "quit". */
  lemma ReadAllQuit(lines: seq<string>)
    ensures Quit in ReadAll(lines) <==> exists i :: 0 <= i < |lines| && Normalize(lines[i]) == "quit"
  {
    var cs := ReadAll(lines);
    if Quit in cs {
      var i :| 0 <= i < |cs| && cs[i] == Quit;
      assert Parse(Normalize(lines[i])).Quit?;
    }
    if exists i :: 0 <= i < |lines| && Normalize(lines[i]) == "quit" {
      var i :| 0 <= i < |lines| && Normalize(lines[i]) == "quit";
      assert cs[i] == Quit;
    }
  }

  /** The session stops exactly when some input line reads "quit" once
      stripped and lower-cased, and its last printed line is then the
      farewell. */
  lemma PlayHaltsIffQuit(m: GameMap, lines: seq<string>)
    requires WellFormedMap(m)
    ensures Play(m, lines).halted <==> exists i :: 0 <= i < |lines| && Normalize(lines[i]) == "quit"
    ensures Play(m, lines).halted ==> Play(m, lines).output[|Play(m, lines).output| - 1] == "Goodbye!"
  {
    RunHaltsIffQuit(Init(m), ReadAll(lines));
    ReadAllQuit(lines);
  }

  /** Once the session has stopped, no further input line is read. */
  lemma PlayIgnoresAfterQuit(m: GameMap, lines: seq<string>, more: seq<string>)
    requires WellFormedMap(m) && Play(m, lines).halted
    ensures Play(m, lines + more) == Play(m, lines)
  {
    ReadAllAppend(lines, more);
    RunIgnoresAfterQuit(Init(m), ReadAll(lines), ReadAll(more));
  }
}
