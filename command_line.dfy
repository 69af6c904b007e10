/**
 * The command-line grammar of `parseUserInput`, as a function of the token
 * sequence:  command [arg ...] [< inputFile] [> outputFile] [&]
 * with single lookahead: `<` and `>` take the next token as a path, `&` is a
 * background marker only as the last token, and an `&` followed by a token is
 * kept, with that token, as two ordinary arguments.
 */
module CommandLine {
  import opened Wrappers
  import opened Sequences
  import opened Tokenizer

  /** Capacity of the `userArgs` and `builtArgs` buffers. */
  const MAXARGS: nat := 512

  /** The fields of `struct userInput` that parsing fills in. */
  datatype Command = Command(
    command: Option<string>,
    userArgs: seq<string>,
    inputFile: Option<string>,
    outputFile: Option<string>,
    inBackground: bool,
    redirect: bool)

  /** A `<` or `>` that ends the line, with no path after it. */
  datatype ParseError = MissingTarget(operator: string)

  /** The record of a line without tokens. */
  const Blank: Command := Command(None, [], None, None, false, false)

  /** The record once the first token has been taken as the command. */
  function Started(name: string): Command {
    Command(Some(name), [], None, None, false, false)
  }

  predicate IsOperator(t: string) {
    t == "<" || t == ">" || t == "&"
  }

  /** Parsing of a whole token sequence. */
  function Parse(toks: seq<string>): Result<Command, ParseError> {
    if toks == [] then Ok(Blank) else ParseRest(Started(toks[0]), toks[1..])
  }

  /** Parsing of a line of input (without its line terminator). */
  function ParseLine(line: string): Result<Command, ParseError> {
    Parse(Tokens(line))
  }

  /** The loop over the tokens after the command, from the record `c` filled so far. */
  function ParseRest(c: Command, toks: seq<string>): Result<Command, ParseError>
    decreases |toks|
  {
    if toks == [] then Ok(c)
    else if toks[0] == "<" then
      if |toks| == 1 then Err(MissingTarget("<"))
      else ParseRest(c.(inputFile := Some(toks[1]), redirect := true), toks[2..])
    else if toks[0] == ">" then
      if |toks| == 1 then Err(MissingTarget(">"))
      else ParseRest(c.(outputFile := Some(toks[1])), toks[2..])
    else if toks[0] == "&" then
      if |toks| == 1 then Ok(c.(inBackground := true))
      else ParseRest(c.(userArgs := c.userArgs + ["&", toks[1]]), toks[2..])
    else ParseRest(c.(userArgs := c.userArgs + [toks[0]]), toks[1..])
  }

  /**
   * One iteration of the token loop on the token `t`, followed by the tokens
   * `rest`: the record it leaves. A `<` or `>` without a path leaves the
   * record as it was, since the loop fails there.
   */
  function Step(c: Command, t: string, rest: seq<string>): Command
  {
    if !IsOperator(t) then c.(userArgs := c.userArgs + [t])
    else if rest == [] then (if t == "&" then c.(inBackground := true) else c)
    else if t == "<" then c.(inputFile := Some(rest[0]), redirect := true)
    else if t == ">" then c.(outputFile := Some(rest[0]))
    else c.(userArgs := c.userArgs + ["&", rest[0]])
  }

  /** The loop is `Step` repeated: an operator consumes the token after it, and only a `<` or `>` without one fails. */
  lemma StepParse(c: Command, t: string, rest: seq<string>)
    ensures (t == "<" || t == ">") && rest == [] ==> ParseRest(c, [t] + rest) == Err(MissingTarget(t))
    ensures t == "&" && rest == [] ==> ParseRest(c, [t] + rest) == Ok(Step(c, t, rest))
    ensures !IsOperator(t) ==> ParseRest(c, [t] + rest) == ParseRest(Step(c, t, rest), rest)
    ensures IsOperator(t) && rest != [] ==> ParseRest(c, [t] + rest) == ParseRest(Step(c, t, rest), rest[1..])
  {
    assert ([t] + rest)[1..] == rest;
    if rest != [] {
      assert ([t] + rest)[1] == rest[0];
      assert ([t] + rest)[2..] == rest[1..];
    }
  }

  // ---------------------------------------------------------------------------
  // What the loop keeps and what it adds

  lemma {:induction false} ParseRestCommand(c: Command, toks: seq<string>)
    requires ParseRest(c, toks).Ok?
    ensures ParseRest(c, toks).value.command == c.command
    decreases |toks|
  {
    if toks != [] {
      if toks[0] == "<" || toks[0] == ">" || (toks[0] == "&" && |toks| > 1) {
        ParseRestCommand(if toks[0] == "<" then c.(inputFile := Some(toks[1]), redirect := true)
                         else if toks[0] == ">" then c.(outputFile := Some(toks[1]))
                         else c.(userArgs := c.userArgs + ["&", toks[1]]), toks[2..]);
      } else if toks[0] != "&" {
        ParseRestCommand(c.(userArgs := c.userArgs + [toks[0]]), toks[1..]);
      }
    }
  }

  lemma {:induction false} ParseRestArgs(c: Command, toks: seq<string>)
    requires ParseRest(c, toks).Ok?
    ensures Extends(c.userArgs, ParseRest(c, toks).value.userArgs, toks)
    decreases |toks|
  {
    var r := ParseRest(c, toks).value;
    if toks == [] {
      assert r.userArgs[|c.userArgs|..] == [];
    } else if toks[0] == "<" || toks[0] == ">" {
      var c' := if toks[0] == "<" then c.(inputFile := Some(toks[1]), redirect := true)
                else c.(outputFile := Some(toks[1]));
      ParseRestArgs(c', toks[2..]);
      ExtendsSkip(c.userArgs, r.userArgs, toks);
    } else if toks[0] == "&" {
      if |toks| == 1 {
        assert r.userArgs[|c.userArgs|..] == [];
      } else {
        ParseRestArgs(c.(userArgs := c.userArgs + ["&", toks[1]]), toks[2..]);
        ExtendsPair(c.userArgs, r.userArgs, toks);
      }
    } else {
      ParseRestArgs(c.(userArgs := c.userArgs + [toks[0]]), toks[1..]);
      ExtendsWord(c.userArgs, r.userArgs, toks);
    }
  }

  /** `after` starts with `before`, and what follows is taken from `toks` in order. */
  ghost predicate Extends(before: seq<string>, after: seq<string>, toks: seq<string>) {
    |before| <= |after| && after[..|before|] == before && Subseq(after[|before|..], toks)
  }

  lemma ExtendsSkip(a: seq<string>, b: seq<string>, toks: seq<string>)
    requires |toks| >= 2 && Extends(a, b, toks[2..])
    ensures Extends(a, b, toks)
  {
    assert toks[1..][1..] == toks[2..];
  }

  lemma ExtendsWord(a: seq<string>, b: seq<string>, toks: seq<string>)
    requires toks != [] && Extends(a + [toks[0]], b, toks[1..])
    ensures Extends(a, b, toks)
  {
    var n := |a|;
    assert b[..n] == b[..n + 1][..n];
    assert b[n..] == [toks[0]] + b[n + 1..];
  }

  lemma ExtendsPair(a: seq<string>, b: seq<string>, toks: seq<string>)
    requires |toks| >= 2 && Extends(a + [toks[0], toks[1]], b, toks[2..])
    ensures Extends(a, b, toks)
  {
    var n := |a|;
    var tail := b[n + 2..];
    assert b[..n] == b[..n + 2][..n];
    assert b[n..] == [toks[0], toks[1]] + tail;
    assert b[n..][1..] == [toks[1]] + tail;
    assert ([toks[1]] + tail)[1..] == tail;
    assert toks[1..][1..] == toks[2..];
  }

  lemma {:induction false} ParseRestBackground(c: Command, toks: seq<string>)
    requires ParseRest(c, toks).Ok? && ParseRest(c, toks).value.inBackground
    ensures c.inBackground || (|toks| > 0 && toks[|toks| - 1] == "&")
    decreases |toks|
  {
    if toks != [] {
      if toks[0] == "<" || toks[0] == ">" || (toks[0] == "&" && |toks| > 1) {
        ParseRestBackground(if toks[0] == "<" then c.(inputFile := Some(toks[1]), redirect := true)
                            else if toks[0] == ">" then c.(outputFile := Some(toks[1]))
                            else c.(userArgs := c.userArgs + ["&", toks[1]]), toks[2..]);
      } else if toks[0] != "&" {
        ParseRestBackground(c.(userArgs := c.userArgs + [toks[0]]), toks[1..]);
      }
    }
  }

  lemma {:induction false} ParseRestRedirect(c: Command, toks: seq<string>)
    requires ParseRest(c, toks).Ok? && (c.redirect <==> c.inputFile.Some?)
    ensures ParseRest(c, toks).value.redirect <==> ParseRest(c, toks).value.inputFile.Some?
    decreases |toks|
  {
    if toks != [] {
      if toks[0] == "<" || toks[0] == ">" || (toks[0] == "&" && |toks| > 1) {
        ParseRestRedirect(if toks[0] == "<" then c.(inputFile := Some(toks[1]), redirect := true)
                          else if toks[0] == ">" then c.(outputFile := Some(toks[1]))
                          else c.(userArgs := c.userArgs + ["&", toks[1]]), toks[2..]);
      } else if toks[0] != "&" {
        ParseRestRedirect(c.(userArgs := c.userArgs + [toks[0]]), toks[1..]);
      }
    }
  }

  lemma {:induction false} ParseRestError(c: Command, toks: seq<string>)
    requires ParseRest(c, toks).Err?
    ensures |toks| > 0 && (toks[|toks| - 1] == "<" || toks[|toks| - 1] == ">")
    ensures ParseRest(c, toks).error == MissingTarget(toks[|toks| - 1])
    decreases |toks|
  {
    if toks[0] == "<" || toks[0] == ">" || (toks[0] == "&" && |toks| > 1) {
      if |toks| > 1 {
        ParseRestError(if toks[0] == "<" then c.(inputFile := Some(toks[1]), redirect := true)
                       else if toks[0] == ">" then c.(outputFile := Some(toks[1]))
                       else c.(userArgs := c.userArgs + ["&", toks[1]]), toks[2..]);
        assert toks[2..][|toks| - 3] == toks[|toks| - 1];
      }
    } else if toks[0] != "&" {
      ParseRestError(c.(userArgs := c.userArgs + [toks[0]]), toks[1..]);
      assert toks[1..][|toks| - 2] == toks[|toks| - 1];
    }
  }

  /** Tokens that are not operators are appended, in order, and nothing else changes. */
  lemma {:induction false} ParseRestPlain(c: Command, args: seq<string>, tail: seq<string>)
    requires forall k :: 0 <= k < |args| ==> !IsOperator(args[k])
    ensures ParseRest(c, args + tail) == ParseRest(c.(userArgs := c.userArgs + args), tail)
    decreases |args|
  {
    if args == [] {
      assert args + tail == tail;
      assert c.userArgs + args == c.userArgs;
    } else {
      assert (args + tail)[0] == args[0];
      assert (args + tail)[1..] == args[1..] + tail;
      ParseRestPlain(c.(userArgs := c.userArgs + [args[0]]), args[1..], tail);
      assert c.userArgs + [args[0]] + args[1..] == c.userArgs + args;
    }
  }

  /** The number of arguments the loop appends before it ends or fails. */
  function ArgsAppended(toks: seq<string>): nat
    decreases |toks|
  {
    if toks == [] then 0
    else if toks[0] == "<" || toks[0] == ">" then
      if |toks| == 1 then 0 else ArgsAppended(toks[2..])
    else if toks[0] == "&" then
      if |toks| == 1 then 0 else 2 + ArgsAppended(toks[2..])
    else 1 + ArgsAppended(toks[1..])
  }

  /** On success, the loop appends exactly `ArgsAppended(toks)` arguments. */
  lemma {:induction false} ParseRestArgCount(c: Command, toks: seq<string>)
    requires ParseRest(c, toks).Ok?
    ensures |ParseRest(c, toks).value.userArgs| == |c.userArgs| + ArgsAppended(toks)
    decreases |toks|
  {
    if toks != [] {
      if toks[0] == "<" || toks[0] == ">" {
        ParseRestArgCount(if toks[0] == "<" then c.(inputFile := Some(toks[1]), redirect := true)
                          else c.(outputFile := Some(toks[1])), toks[2..]);
      } else if toks[0] == "&" {
        if |toks| > 1 {
          ParseRestArgCount(c.(userArgs := c.userArgs + ["&", toks[1]]), toks[2..]);
        }
      } else {
        ParseRestArgCount(c.(userArgs := c.userArgs + [toks[0]]), toks[1..]);
      }
    }
  }

  /**
   * A `<` or `>` appended to tokens that parse, and whose last `&` is not
   * waiting for a token, has no path after it: the loop fails on it.
   */
  lemma {:induction false} TrailingOperatorFails(c: Command, toks: seq<string>, op: string)
    requires op == "<" || op == ">"
    requires !c.inBackground && ParseRest(c, toks).Ok? && !ParseRest(c, toks).value.inBackground
    ensures ParseRest(c, toks + [op]) == Err(MissingTarget(op))
    decreases |toks|
  {
    var u := toks + [op];
    if toks == [] {
      assert u == [op];
    } else {
      assert u[0] == toks[0];
      if IsOperator(toks[0]) && |toks| > 1 {
        assert u[1] == toks[1];
        assert u[2..] == toks[2..] + [op];
        TrailingOperatorFails(if toks[0] == "<" then c.(inputFile := Some(toks[1]), redirect := true)
                              else if toks[0] == ">" then c.(outputFile := Some(toks[1]))
                              else c.(userArgs := c.userArgs + ["&", toks[1]]), toks[2..], op);
      } else if !IsOperator(toks[0]) {
        assert u[1..] == toks[1..] + [op];
        TrailingOperatorFails(c.(userArgs := c.userArgs + [toks[0]]), toks[1..], op);
      }
    }
  }

  /** When the loop fails, the tokens before the last one parse, and do not end in a background `&`. */
  lemma {:induction false} RejectedPrefix(c: Command, toks: seq<string>)
    requires !c.inBackground && ParseRest(c, toks).Err?
    ensures |toks| > 0
    ensures ParseRest(c, toks[..|toks| - 1]).Ok? && !ParseRest(c, toks[..|toks| - 1]).value.inBackground
    decreases |toks|
  {
    var pre := toks[..|toks| - 1];
    if IsOperator(toks[0]) {
      if |toks| == 1 {
        assert pre == [];
      } else {
        var rest := toks[2..];
        RejectedPrefix(if toks[0] == "<" then c.(inputFile := Some(toks[1]), redirect := true)
                       else if toks[0] == ">" then c.(outputFile := Some(toks[1]))
                       else c.(userArgs := c.userArgs + ["&", toks[1]]), rest);
        assert pre[0] == toks[0] && pre[1] == toks[1];
        assert pre[2..] == rest[..|rest| - 1];
      }
    } else {
      var rest := toks[1..];
      RejectedPrefix(c.(userArgs := c.userArgs + [toks[0]]), rest);
      assert pre[0] == toks[0];
      assert pre[1..] == rest[..|rest| - 1];
    }
  }

  // ---------------------------------------------------------------------------
  // Properties of a whole parse

  /** No token: no command and nothing else; otherwise the first token is the command. */
  lemma ParseCommand(toks: seq<string>)
    ensures toks == [] ==> Parse(toks) == Ok(Blank)
    ensures toks != [] && Parse(toks).Ok? ==> Parse(toks).value.command == Some(toks[0])
  {
    if toks != [] && Parse(toks).Ok? {
      ParseRestCommand(Started(toks[0]), toks[1..]);
    }
  }

  /** The arguments are tokens after the command, in input order; there are fewer of them than tokens. */
  lemma ParseArguments(toks: seq<string>)
    requires Parse(toks).Ok?
    ensures toks == [] ==> Parse(toks).value.userArgs == []
    ensures toks != [] ==> Subseq(Parse(toks).value.userArgs, toks[1..])
                           && |Parse(toks).value.userArgs| < |toks|
  {
    if toks != [] {
      ParseRestArgs(Started(toks[0]), toks[1..]);
      var args := Parse(toks).value.userArgs;
      assert args[0..] == args;
      SubseqLength(args, toks[1..]);
    }
  }

  /** `inBackground` starts false and is set only when `&` is the last token. */
  lemma ParseBackground(toks: seq<string>)
    requires Parse(toks).Ok? && Parse(toks).value.inBackground
    ensures |toks| >= 2 && toks[|toks| - 1] == "&"
  {
    ParseRestBackground(Started(toks[0]), toks[1..]);
  }

  /** `redirect` records exactly that an input file was given; `>` does not set it. */
  lemma ParseRedirect(toks: seq<string>)
    requires Parse(toks).Ok?
    ensures Parse(toks).value.redirect <==> Parse(toks).value.inputFile.Some?
  {
    if toks != [] {
      ParseRestRedirect(Started(toks[0]), toks[1..]);
    }
  }

  /**
   * A parse fails exactly when the line ends in a `<` or `>` with no path: the
   * tokens before it parse, and do not end in an `&` that would take it as an
   * argument. The error names that operator.
   */
  lemma ParseFailure(toks: seq<string>)
    ensures Parse(toks).Err? <==>
      && |toks| >= 2 && (toks[|toks| - 1] == "<" || toks[|toks| - 1] == ">")
      && Parse(toks[..|toks| - 1]).Ok? && !Parse(toks[..|toks| - 1]).value.inBackground
    ensures Parse(toks).Err? ==> Parse(toks).error == MissingTarget(toks[|toks| - 1])
  {
    if Parse(toks).Err? {
      ParseRestError(Started(toks[0]), toks[1..]);
      RejectedPrefix(Started(toks[0]), toks[1..]);
      var pre := toks[..|toks| - 1];
      assert pre[0] == toks[0];
      assert pre[1..] == toks[1..][..|toks| - 2];
    }
    if |toks| >= 2 && (toks[|toks| - 1] == "<" || toks[|toks| - 1] == ">") {
      var pre := toks[..|toks| - 1];
      if Parse(pre).Ok? && !Parse(pre).value.inBackground {
        assert toks[0] == pre[0];
        assert toks[1..] == pre[1..] + [toks[|toks| - 1]];
        TrailingOperatorFails(Started(pre[0]), pre[1..], toks[|toks| - 1]);
      }
    }
  }

  /**
   * A later `<` (or `>`) overwrites the path of an earlier one, also when
   * ordinary words come between them, as in `cat < a x < b`.
   */
  lemma LastRedirectionWins(c: Command, op: string, t1: string, mid: seq<string>, t2: string, rest: seq<string>)
    requires op == "<" || op == ">"
    requires forall k :: 0 <= k < |mid| ==> !IsOperator(mid[k])
    ensures ParseRest(c, [op, t1] + mid + [op, t2] + rest) == ParseRest(c, mid + [op, t2] + rest)
  {
    var tail := [op, t2] + rest;
    var first := if op == "<" then c.(inputFile := Some(t1), redirect := true) else c.(outputFile := Some(t1));
    assert [op, t1] + mid + [op, t2] + rest == [op, t1] + (mid + tail);
    assert ([op, t1] + (mid + tail))[2..] == mid + tail;
    assert mid + [op, t2] + rest == mid + tail;
    ParseRestPlain(first, mid, tail);
    ParseRestPlain(c, mid, tail);
    assert tail[2..] == rest;
  }

  /** Operators and their operands of well-formed input, as the grammar lays them out. */
  function Render(c: Command): seq<string>
    requires c.command.Some?
  {
    [c.command.value] + c.userArgs
    + (if c.inputFile.Some? then ["<", c.inputFile.value] else [])
    + (if c.outputFile.Some? then [">", c.outputFile.value] else [])
    + (if c.inBackground then ["&"] else [])
  }

  /** The records that a line of the documented grammar produces. */
  predicate WellFormed(c: Command) {
    && c.command.Some? && IsWord(c.command.value)
    && (forall k :: 0 <= k < |c.userArgs| ==> IsWord(c.userArgs[k]) && !IsOperator(c.userArgs[k]))
    && (c.inputFile.Some? ==> IsWord(c.inputFile.value))
    && (c.outputFile.Some? ==> IsWord(c.outputFile.value))
    && (c.redirect <==> c.inputFile.Some?)
  }

  lemma ParseRedirections(c: Command, tail: seq<string>)
    requires tail == (if c.inputFile.Some? then ["<", c.inputFile.value] else [])
                     + (if c.outputFile.Some? then [">", c.outputFile.value] else [])
                     + (if c.inBackground then ["&"] else [])
    requires c.redirect <==> c.inputFile.Some?
    ensures ParseRest(c.(inputFile := None, outputFile := None, inBackground := false,
                         redirect := false), tail) == Ok(c)
  {
    var c0 := c.(inputFile := None, outputFile := None, inBackground := false, redirect := false);
    var c1 := if c.inputFile.Some? then c0.(inputFile := c.inputFile, redirect := true) else c0;
    var c2 := c1.(outputFile := c.outputFile);
    var t2 := (if c.outputFile.Some? then [">", c.outputFile.value] else [])
              + (if c.inBackground then ["&"] else []);
    var t3 := if c.inBackground then ["&"] else [];
    assert ParseRest(c2, t3) == Ok(c);
    if c.outputFile.Some? {
      assert t2[2..] == t3;
    }
    assert ParseRest(c1, t2) == ParseRest(c2, t3);
    if c.inputFile.Some? {
      assert tail[2..] == t2;
    }
    assert ParseRest(c0, tail) == ParseRest(c1, t2);
  }

  /** Every token of a rendered well-formed record is a word. */
  lemma RenderWords(c: Command)
    requires WellFormed(c)
    ensures forall k :: 0 <= k < |Render(c)| ==> IsWord(Render(c)[k])
  {
    var toks := Render(c);
    var head := [c.command.value] + c.userArgs;
    var tail := toks[|head|..];
    assert toks == head + tail;
    forall k | 0 <= k < |toks| ensures IsWord(toks[k]) {
      if k < |head| {
        assert toks[k] == head[k];
        if k > 0 {
          assert head[k] == c.userArgs[k - 1];
        }
      } else {
        assert toks[k] == tail[k - |head|];
      }
    }
  }

  /** A well-formed record, rendered as tokens and parsed back, is itself. */
  lemma ParseRender(c: Command)
    requires WellFormed(c)
    ensures Parse(Render(c)) == Ok(c)
  {
    var toks := Render(c);
    var tail := (if c.inputFile.Some? then ["<", c.inputFile.value] else [])
                + (if c.outputFile.Some? then [">", c.outputFile.value] else [])
                + (if c.inBackground then ["&"] else []);
    assert toks == [c.command.value] + (c.userArgs + tail);
    assert toks[1..] == c.userArgs + tail;
    ParseRestPlain(Started(c.command.value), c.userArgs, tail);
    assert [] + c.userArgs == c.userArgs;
    ParseRedirections(c, tail);
    assert Started(c.command.value).(userArgs := c.userArgs)
      == c.(inputFile := None, outputFile := None, inBackground := false, redirect := false);
  }

  /** The same, starting from the text: the words joined with single spaces. */
  lemma ParseLineRender(c: Command)
    requires WellFormed(c)
    ensures ParseLine(Join(Render(c))) == Ok(c)
  {
    RenderWords(c);
    TokensJoin(Render(c));
    ParseRender(c);
  }

  /** An `&` and the token after it are kept as two arguments, whatever that token is. */
  lemma AmpersandFollowed(c: Command, t: string, rest: seq<string>)
    ensures ParseRest(c, ["&", t] + rest) == ParseRest(c.(userArgs := c.userArgs + ["&", t]), rest)
  {
    assert (["&", t] + rest)[2..] == rest;
  }

  /** The same on three lines: `sleep & 5`, `ls & &` and `ls & >`. */
  lemma AmpersandFollowedExamples()
    ensures Parse(["sleep", "&", "5"]) == Ok(Started("sleep").(userArgs := ["&", "5"]))
    ensures Parse(["ls", "&", "&"]) == Ok(Started("ls").(userArgs := ["&", "&"]))
    ensures Parse(["ls", "&", ">"]) == Ok(Started("ls").(userArgs := ["&", ">"]))
  {
    var toks := ["&", "5"];
    assert ["sleep", "&", "5"][1..] == toks;
    assert toks[2..] == [];
    assert [] + ["&", "5"] == ["&", "5"];
    assert ParseRest(Started("sleep"), toks) == ParseRest(Started("sleep").(userArgs := ["&", "5"]), []);
    assert ["ls", "&", "&"][1..] == ["&", "&"];
    assert ["&", "&"][2..] == [];
    assert [] + ["&", "&"] == ["&", "&"];
    assert ParseRest(Started("ls"), ["&", "&"]) == ParseRest(Started("ls").(userArgs := ["&", "&"]), []);
    assert ["ls", "&", ">"][1..] == ["&", ">"];
    assert ["&", ">"][2..] == [];
    assert [] + ["&", ">"] == ["&", ">"];
    assert ParseRest(Started("ls"), ["&", ">"]) == ParseRest(Started("ls").(userArgs := ["&", ">"]), []);
  }

  /** An `&` that ends the line marks the command for the background and is not an argument. */
  lemma AmpersandLast(name: string, args: seq<string>)
    requires forall k :: 0 <= k < |args| ==> !IsOperator(args[k])
    ensures Parse([name] + args + ["&"]) == Ok(Started(name).(userArgs := args, inBackground := true))
  {
    assert ([name] + args + ["&"])[1..] == args + ["&"];
    ParseRestPlain(Started(name), args, ["&"]);
    assert [] + args == args;
  }

  /** The same on the line `sleep 5 &`. */
  lemma AmpersandLastExample()
    ensures Parse(["sleep", "5", "&"]) == Ok(Started("sleep").(userArgs := ["5"], inBackground := true))
  {
    assert ["sleep", "5", "&"][1..] == ["5", "&"];
    assert ["5", "&"][1..] == ["&"];
    assert [] + ["5"] == ["5"];
    assert ParseRest(Started("sleep"), ["5", "&"]) == ParseRest(Started("sleep").(userArgs := ["5"]), ["&"]);
  }

  /** On two lines: `cat <` is an error, and `cat < &` reads from a file named `&`. */
  lemma RedirectionExamples()
    ensures Parse(["cat", "<"]) == Err(MissingTarget("<"))
    ensures Parse(["cat", "<", "&"]) == Ok(Started("cat").(inputFile := Some("&"), redirect := true))
  {
    assert ["cat", "<"][1..] == ["<"];
    assert ["cat", "<", "&"][1..] == ["<", "&"];
    assert ["<", "&"][2..] == [];
  }
}
