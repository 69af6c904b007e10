/**
 * `struct userInput` and the functions that fill it: `parseUserInput`,
 * `buildArgs` and `clearUserInput`.
 */
module Input {
  import opened Wrappers
  import opened Tokenizer
  import opened CommandLine

  /** One parsed line. Absent pointers are `None`; `userArgs` and `builtArgs` list the slots before the first NULL. */
  class UserInput {
    var command: Option<string>
    var userArgs: seq<string>
    var builtArgs: seq<string>
    var inputFile: Option<string>
    var outputFile: Option<string>
    var inBackground: bool
    var redirect: bool

    /** The parsed fields as a value. */
    function View(): Command
      reads this
    {
      Command(command, userArgs, inputFile, outputFile, inBackground, redirect)
    }

    /** Both argument lists fit their buffers, and a line without a command has no arguments. */
    ghost predicate Valid()
      reads this
    {
      |userArgs| <= MAXARGS && |builtArgs| <= MAXARGS && (command.None? ==> userArgs == [])
    }

    /** A fresh record, before any token is read. */
    constructor ()
      ensures Valid() && View() == Blank && builtArgs == []
    {
      command, userArgs, builtArgs := None, [], [];
      inputFile, outputFile := None, None;
      inBackground, redirect := false, false;
    }

    /**
     * `buildArgs`: the argument vector for `execvp`, the command followed by
     * the arguments. It reads `userArgs` up to its first NULL slot, so that
     * slot must exist. Without a command the vector starts with NULL, that is,
     * it is empty.
     */
    method BuildArgs()
      requires Valid() && |userArgs| < MAXARGS
      modifies this`builtArgs
      ensures Valid()
      ensures command.Some? ==> |builtArgs| == 1 + |userArgs| && builtArgs[0] == command.value
      ensures command.Some? ==> forall k :: 1 <= k < |builtArgs| ==> builtArgs[k] == userArgs[k - 1]
      ensures command.None? ==> builtArgs == []
    {
      builtArgs := if command.Some? then [command.value] else [];
      var argCount := 1;
      while argCount - 1 < |userArgs|
        invariant 1 <= argCount <= |userArgs| + 1
        invariant command.Some? ==> builtArgs == [command.value] + userArgs[..argCount - 1]
        invariant command.None? ==> builtArgs == []
      {
        builtArgs := builtArgs + [userArgs[argCount - 1]];
        argCount := argCount + 1;
      }
      assert userArgs[..|userArgs|] == userArgs;
    }

    /** `clearUserInput`: back to the state of a fresh record (the memory it frees is not modelled). */
    method Clear()
      modifies this
      ensures Valid() && View() == Blank && builtArgs == []
    {
      inBackground, redirect := false, false;
      command, inputFile, outputFile := None, None, None;
      userArgs, builtArgs := [], [];
    }
  }

  /**
   * `parseUserInput`: the loop over `strtok_r` that fills a fresh record.
   * A `<` or `>` without a following token makes the source dereference NULL;
   * here it is the error `MissingTarget`. The source writes the arguments
   * into a buffer of MAXARGS slots, so the loop may append at most MAXARGS.
   */
  method ParseUserInput(line: string) returns (r: Result<UserInput, ParseError>)
    requires Tokens(line) != [] ==> ArgsAppended(Tokens(line)[1..]) <= MAXARGS
    ensures r.Ok? <==> ParseLine(line).Ok?
    ensures r.Ok? ==> fresh(r.value) && r.value.Valid() && r.value.builtArgs == []
    ensures r.Ok? ==> r.value.View() == ParseLine(line).value
    ensures r.Err? ==> ParseLine(line) == Err(r.error)
  {
    var ui := new UserInput();
    assert line[0..] == line;
    var tok, pos := NextToken(line, 0);
    if tok.None? {
      return Ok(ui);
    }
    ui.command := tok;
    tok, pos := NextToken(line, pos);
    while tok.Some?
      invariant pos <= |line|
      invariant tok.None? ==> Tokens(line[pos..]) == []
      invariant ui.command.Some? && ui.builtArgs == []
      invariant |ui.userArgs| + ArgsAppended(Pending(tok, line, pos)) <= MAXARGS
      invariant ParseRest(ui.View(), Pending(tok, line, pos)) == ParseLine(line)
      decreases |line| - pos + (if tok.Some? then 1 else 0)
    {
      var p, failed := HandleToken(ui, line, tok.value, pos);
      if failed.Some? {
        return Err(failed.value);
      }
      tok, pos := NextToken(line, p);
    }
    return Ok(ui);
  }

  /**
   * The body of the loop of `parseUserInput` for the token `t`, with the saved
   * position at `pos`: a redirection operator reads its path, a final `&` sets
   * `inBackground`, any other `&` is kept together with the next token, and an
   * ordinary token is appended. `next` is the saved position afterwards.
   */
  method HandleToken(ui: UserInput, line: string, t: string, pos: nat)
    returns (next: nat, failed: Option<ParseError>)
    requires pos <= |line|
    modifies ui
    ensures pos <= next <= |line|
    ensures ui.command == old(ui.command) && ui.builtArgs == old(ui.builtArgs)
    ensures failed.Some? ==> ParseRest(old(ui.View()), [t] + Tokens(line[pos..])) == Err(failed.value)
    ensures failed.None? ==>
      ParseRest(old(ui.View()), [t] + Tokens(line[pos..])) == ParseRest(ui.View(), Tokens(line[next..]))
    ensures failed.None? ==> ui.View() == Step(old(ui.View()), t, Tokens(line[pos..]))
    ensures failed.None? ==>
      |ui.userArgs| + ArgsAppended(Tokens(line[next..])) == |old(ui.userArgs)| + ArgsAppended([t] + Tokens(line[pos..]))
  {
    ghost var c := ui.View();
    ghost var rest := Tokens(line[pos..]);
    next, failed := pos, None;
    if t == "<" || t == ">" || t == "&" {
      var tok;
      tok, next := NextToken(line, pos);
      if tok.None? {
        assert [t] + rest == [t];
        if t == "&" {
          ui.inBackground := true;
        } else {
          failed := Some(MissingTarget(t));
        }
        return;
      }
      StepPair(c, t, rest);
      if t == "<" {
        ui.inputFile := tok;
        ui.redirect := true;
      } else if t == ">" {
        ui.outputFile := tok;
      } else {
        ui.userArgs := ui.userArgs + ["&"];
        ui.userArgs := ui.userArgs + [tok.value];
        assert ui.userArgs == c.userArgs + ["&", tok.value];
      }
    } else {
      ui.userArgs := ui.userArgs + [t];
      assert ([t] + rest)[1..] == rest;
    }
  }

  /** How the loop of `ParseRest` takes an operator and the token after it. */
  lemma StepPair(c: Command, op: string, rest: seq<string>)
    requires IsOperator(op) && rest != []
    ensures ParseRest(c, [op] + rest) == ParseRest(
      if op == "<" then c.(inputFile := Some(rest[0]), redirect := true)
      else if op == ">" then c.(outputFile := Some(rest[0]))
      else c.(userArgs := c.userArgs + ["&", rest[0]]), rest[1..])
    ensures ArgsAppended([op] + rest) == (if op == "&" then 2 else 0) + ArgsAppended(rest[1..])
  {
    assert ([op] + rest)[1] == rest[0];
    assert ([op] + rest)[2..] == rest[1..];
  }
}
