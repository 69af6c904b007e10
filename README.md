# smallsh in Dafny

A model of `smallsh`, a small Unix shell written in C. The shell reads a line and splits it into space-separated tokens. It turns those tokens into a command record: the command name, its arguments, an optional `< input` file, an optional `> output` file and a trailing `&` that asks for a background run. It then runs one of the built-ins `exit`, `status` or `cd`, or forks a program. After every command except a comment, a blank line or `exit`, it polls and reaps finished background jobs.

SIGTSTP toggles a foreground-only mode. In that mode a trailing `&` is ignored.

The project has these modules:

- `Tokenizer` (`tokenizer.dfy`): splitting a line on single spaces, as `strtok_r(…, " ", …)` does. `NextToken` is the imperative scanner. `Tokens` is its specification.
- `CommandLine` (`command_line.dfy`): the grammar of `parseUserInput` as the pure function `ParseRest`, with lemmas about what the parser keeps, adds and rejects. It also has a renderer `Render` and the round trip `Parse(Render(c)) == Ok(c)`.
- `Input` (`user_input.dfy`): `struct userInput` as the class `UserInput`.
  - `ParseUserInput` is the token loop. It is proved equal to `ParseLine`.
  - `BuildArgs` builds the argument vector.
  - `Clear` is `clearUserInput`.
- `JobTable` (`job_table.dfy`): the background job table `backgroundProcs[0 .. procNum)`.
  - `ReapPass` is the pass of `checkBackground` exactly as written, including how it advances the index.
  - `Survivors` and `Finished` are an independent filter definition that the pass is proved equal to.
  - `ExitTargets` gives the pids `exitProcess` signals.
- `ShellModel` (`shell_model.dfy`): the shell's globals as the value `ShellState`. Its transitions are a SIGTSTP delivery, a launch, a reaping pass and one whole iteration of `main` (`CycleStep`).
- `Smallsh` (`shell.dfy`): the globals as the class `Shell`, with `backgroundProcs` as an `array<int>` updated in place. `CatchSigstp`, `CheckBackground`, `RunProcess` and `Cycle` are each proved to perform the matching `ShellModel` transition. `RemoveAt`, `PollSlot` and `ExitProcess` are proved equal to the `JobTable` functions `ShiftOut`, one step of `ReapPass`, and `ExitTargets`. `CatchSigstpTwice`, a client of the handler rather than a C function, is proved to restore the globals.

All of it has to stay inside the outside world the model is given. The operating system is a parameter, the `World`, which supplies:

- the value of `HOME`;
- whether `chdir` succeeds;
- the pid that `fork` returns;
- the status the blocking `waitpid` reports;
- a poll function: the answer to each non-blocking `waitpid`, which is either `Running` or `Done(status)`.

A wait status is abstracted to `Exited(code)` or `Signaled(signal)`. The global `foregroundStatus` has no initialiser, so it starts at zero, which is the status of a normal exit with code 0, so the initial state holds `Exited(0)`.

## Model

| member | source | states |
|---|---|---|
| Tokenizer.RunLength | smallsh.c:98 | The first token ends at the first space or at the end of the line. |
| Tokenizer.RunLengthUnique | smallsh.c:98 | Any length with those two properties is that token length. |
| Tokenizer.Tokens | smallsh.c:98-146 | Every token is a non-empty word without spaces. |
| Tokenizer.TokensOfWord | smallsh.c:98 | A line holding one space-free word yields exactly that word. |
| Tokenizer.TokensSplit | smallsh.c:98-146 | A space is a token boundary: tokenising `a + " " + b` gives the tokens of `a` followed by the tokens of `b`. |
| Tokenizer.TokensJoin | smallsh.c:98-146 | Tokenising words joined by single spaces gives back the same words. |
| Tokenizer.TokensKeepNonSpaces | smallsh.c:98-146 | Concatenated, the tokens are exactly the non-space characters of the line, in order, none dropped. |
| Tokenizer.NextToken | smallsh.c:107 | One `strtok_r` call: it returns no token exactly when only spaces remain, otherwise the next token. The token it returns, followed by the tokens after it, is exactly the tokens from the old position. |
| CommandLine.ParseRestCommand | smallsh.c:104-147 | The loop over the remaining tokens never changes the command name. |
| CommandLine.ParseRestArgs | smallsh.c:108-147 | On success, the loop only appends to the argument list, and what it appends is taken in order from the remaining tokens. |
| CommandLine.ParseRestBackground | smallsh.c:123-126 | The background flag is set only when `&` is the last token. |
| CommandLine.ParseRestRedirect | smallsh.c:110-121 | After the loop, `redirect` is set exactly when an input file is set; `>` never sets it. |
| CommandLine.ParseRestError | smallsh.c:110-121 | The loop fails only when the last token is `<` or `>`, and it reports that operator. |
| CommandLine.ParseRestArgCount | smallsh.c:123-144 | On success, the loop appends exactly `ArgsAppended(toks)` arguments: one per ordinary token, two per `&` followed by a token, none for redirections. |
| CommandLine.TrailingOperatorFails | smallsh.c:110-121 | For any tokens that parse without ending in a background `&`, appending a `<` or `>` makes the loop fail on that operator. |
| CommandLine.RejectedPrefix | smallsh.c:108-147 | When the loop fails, the tokens before the last one parse, and do not end in a background `&`. |
| CommandLine.ParseRestPlain | smallsh.c:140-144 | A run of ordinary words is appended to the arguments one by one, whatever follows it. |
| CommandLine.ParseCommand | smallsh.c:97-105 | A blank line gives the empty record without a command; otherwise the command is the first token. |
| CommandLine.ParseArguments | smallsh.c:107-147 | The arguments are an in-order subsequence of the tokens after the command, so there are fewer of them than tokens. |
| CommandLine.ParseBackground | smallsh.c:123-126 | A parsed background command has at least two tokens, the last of which is `&`. |
| CommandLine.ParseRedirect | smallsh.c:110-121 | For a whole line, `redirect` holds exactly when `< file` was given. |
| CommandLine.ParseFailure | smallsh.c:110-121 | A line is rejected exactly when its last token is a `<` or `>` and the tokens before it parse without ending in a background `&`, that is, when the operator is left without a file. The error names that operator. |
| CommandLine.LastRedirectionWins | smallsh.c:110-121 | A later `< f` or `> f` overrides an earlier one, also with ordinary words between them, as in `cat < a x < b`. |
| CommandLine.ParseRedirections | smallsh.c:110-126 | The suffix `< in > out &` sets exactly the two files and the background flag. |
| CommandLine.RenderWords | smallsh.c:98 | Rendering a well-formed command produces only words. |
| CommandLine.ParseRender | smallsh.c:86-150 | Parsing the rendering of a well-formed command gives that command back. |
| CommandLine.ParseLineRender | smallsh.c:86-150 | The same round trip through a line joined by single spaces. |
| CommandLine.AmpersandFollowed | smallsh.c:123-137 | An `&` followed by any token, even an operator, is passed on as the argument `&` together with that token, which is not interpreted. |
| CommandLine.AmpersandFollowedExamples | smallsh.c:123-137 | The lines `sleep & 5`, `ls & &` and `ls & >` have the arguments `& 5`, `& &` and `& >`. |
| CommandLine.AmpersandLast | smallsh.c:123-126 | A command followed by ordinary words and a final `&` runs in the background with exactly those words as arguments. |
| CommandLine.AmpersandLastExample | smallsh.c:123-126 | The line `sleep 5 &` runs `sleep` in the background with the single argument `5`. |
| CommandLine.RedirectionExamples | smallsh.c:110-115 | The line `cat <` is rejected, and `cat < &` reads from a file named `&`. |
| Input.UserInput.constructor | smallsh.c:93-95 | A new record has no command, no arguments and both flags false. |
| Input.UserInput.BuildArgs | smallsh.c:189-200 | The argument vector is the command followed by every argument, in order. |
| Input.UserInput.Clear | smallsh.c:58-79 | The record is reset to the blank record, with empty argument lists. |
| Input.ParseUserInput | smallsh.c:86-150 | Given that the loop appends at most `MAXARGS` arguments, the size of the `userArgs` buffer, it fails exactly when `ParseLine` fails, with the same error; otherwise it returns a fresh record whose contents equal `ParseLine(line)`. |
| Input.HandleToken | smallsh.c:109-144 | One step of the token loop leaves exactly the record `Step` gives, and takes the work left from `[t]` plus the following tokens to the work left from the new position. When the last token is `<` or `>`, it reports that error. |
| CommandLine.StepParse | smallsh.c:109-144 | The token loop is `Step` repeated: an operator consumes the token after it, a final `&` ends the loop with the background flag set, and only a `<` or `>` without a path fails, naming itself. |
| Input.StepPair | smallsh.c:110-137 | Each operator that has a token after it consumes that token together with itself. |
| JobTable.ShiftOut | smallsh.c:231-236 | The removal shift: the live entries lose slot `i`, the slot after the new last one keeps its stale value and later slots are untouched. |
| JobTable.Survivors | smallsh.c:225-248 | The jobs a pass keeps are an in-order subsequence of the live jobs. |
| JobTable.ReapPassSweeps | smallsh.c:225-248 | From any index, the pass keeps the earlier slots. The surviving later slots are the jobs the filter keeps, and the pass reports the jobs it finds. |
| JobTable.ReapPassFilters | smallsh.c:221-249 | A whole pass leaves exactly `Survivors` live and reports exactly `Finished`, in table order. |
| JobTable.SweepPartition | smallsh.c:225-248 | Every job is either kept or reported, never both: as a multiset, the jobs are the survivors plus the reported pids, and the counts add up. |
| JobTable.RunningSurvive | smallsh.c:226-227 | A job still running is never removed. |
| JobTable.FinishedWereDone | smallsh.c:226-246 | Every report names a job of the table, with the status its poll gave. |
| JobTable.ReapPassIdle | smallsh.c:225-248 | When no job has finished, the pass changes nothing and reports nothing. |
| JobTable.SkipAfterRemoval | smallsh.c:225-246 | When the pass removes the job in slot `i`, the job shifted into slot `i` is kept in this pass whatever its own poll says, and the reports go on with the jobs after it. |
| JobTable.ReapPassFrame | smallsh.c:232-236 | A pass never changes the slots from the old `procNum` on. |
| JobTable.StaleSlotAfterPass | smallsh.c:232-236 | When a pass removed any job, slot `procNum` afterwards holds the job that was last in the table before the pass. |
| JobTable.SurvivorsLast | smallsh.c:225-248 | When the last job is still running, it is the last survivor. |
| JobTable.ExitTargets | smallsh.c:331-335 | `exitProcess` signals `procNum + 1` slots, from slot `procNum` down to slot 0. |
| JobTable.ExitSignalsAllJobs | smallsh.c:331-335 | Every live job is signalled: first the slot just past the table, then the live jobs from the last one down to slot 0. |
| JobTable.ExitSignalsOldLast | smallsh.c:331-335 | After a pass that removed a job, `exitProcess` first signals the pid that was last before the pass, even when that job was the one reaped. |
| JobTable.LastJobStaysLast | smallsh.c:228-236 | When a pass removes any job while the last job is still running, the table shrinks but stays non-empty, and its last live slot holds that job. |
| JobTable.ExitSignalsShiftedPidTwice | smallsh.c:231-236 | When a pass removes any job while the last job is still running, `exitProcess` signals that job twice: at the stale slot `procNum` and at the last live slot. |
| ShellModel.Initial | smallsh.c:20-24 | At start-up there are no background jobs and foreground-only mode is off. |
| ShellModel.Sigtstp | smallsh.c:206-216 | SIGTSTP flips foreground-only mode and changes nothing else. The notice is the entering one exactly when the mode was off. |
| ShellModel.SigtstpTwice | smallsh.c:206-216 | Two deliveries restore the state and print different notices. |
| ShellModel.LaunchStep | smallsh.c:269-302 | A job is appended to the table exactly when `&` was given and foreground-only mode is off. Otherwise the shell waits and records the status, and reports a signal exactly when the child was killed by one. The child resets SIGINT exactly when `&` was not given. |
| ShellModel.ReapStep | smallsh.c:221-249 | The live jobs become `Survivors` and the reports `Finished`; the mode and the last status are untouched. |
| ShellModel.ReapIdle | smallsh.c:389-390 | With no finished job, reaping is the identity. |
| ShellModel.CycleStep | smallsh.c:353-397 | Every iteration of the main loop keeps the state well formed. It needs a free slot only for `exit` and for a background launch. |
| ShellModel.BlankOrCommentSkips | smallsh.c:364-369 | A blank or comment line does nothing, not even reaping. |
| ShellModel.BuiltinDispatch | smallsh.c:371-390 | `exit` signals the exit targets and changes nothing. `status` shows the decoded last status. `cd` changes directory. Both then perform one reaping pass, with its new table and its "done" reports. |
| ShellModel.CdTargets | smallsh.c:310-325 | `cd` alone targets HOME, and `cd dir` targets `dir`. |
| ShellModel.StatusAtStart | smallsh.c:374-381 | Before any foreground command, `status` shows 0. |
| ShellModel.StatusAfterForeground | smallsh.c:292-295 | After a foreground run, `status` shows that child's exit code or terminating signal. |
| ShellModel.ForegroundOnlyWaits | smallsh.c:284-302 | In foreground-only mode every program is waited for and no job is added. |
| ShellModel.ForegroundOnlyAmpersandKeepsSigintIgnored | smallsh.c:269-273 | In foreground-only mode, `cmd &` runs in the foreground, yet its child keeps SIGINT ignored. |
| ShellModel.BackgroundJobTracked | smallsh.c:284-291 | A background launch reports its pid, and the job stays in the table while it is running. |
| ShellModel.CycleKeepsOrder | smallsh.c:283-390 | After an iteration the live jobs are the old ones, in order, possibly some removed, plus at most the new pid at the end. |
| Smallsh.Shell.constructor | smallsh.c:20-24 | The globals start in `Initial()`. |
| Smallsh.Shell.CatchSigstp | smallsh.c:206-216 | It performs exactly the `Sigtstp` transition and returns its notice together with the notice's text. |
| Smallsh.Shell.CatchSigstpTwice | smallsh.c:206-216 | A client of the handler, not a C function: two handler calls restore the globals and print different notices. |
| Smallsh.Shell.RemoveAt | smallsh.c:231-236 | The in-place shift leaves the array equal to `ShiftOut` of the old array, with `procNum` one less. |
| Smallsh.Shell.PollSlot | smallsh.c:226-246 | One loop iteration performs one step of `ReapPass`. |
| Smallsh.Shell.CheckBackground | smallsh.c:221-249 | The in-place pass performs exactly the `ReapStep` transition and returns its reports. |
| Smallsh.Shell.RunProcess | smallsh.c:269-302 | The parent's side performs exactly the `LaunchStep` transition. |
| Smallsh.Shell.ExitProcess | smallsh.c:331-335 | It signals exactly `ExitTargets(backgroundProcs, procNum)`. |
| Smallsh.Shell.Cycle | smallsh.c:359-396 | It parses, builds the arguments, dispatches, reaps and clears, and it performs exactly `CycleStep`. It needs only what the C code needs: at most `MAXARGS` arguments appended, a free `builtArgs` slot after them, and slot `procNum` for `exit` and background launches. |

## Left out

- Input: `getUserInput` is not modelled. The line is a parameter, without its last character, which `getUserInput` drops.
- Processes: `fork`, `execvp`, `waitpid`, `kill`, `chdir` and `getenv` are not modelled; their results come from the `World` parameter. The fork-failure path (`exit(1)`) and the child's `execvp` error path are not modelled.
- ExitTargets: slot `procNum` holds 0 until a job has been stored there, because `backgroundProcs` is zero-initialised (smallsh.c:23), so `exit` in a fresh shell calls `kill(0, SIGINT)`, which signals the whole process group; the model treats 0 as an ordinary target.
- `redirect`: the child's file opening is not modelled. The model records which files were named. It does not record whether they could be opened.
- Signals: installing handlers with `sigaction` in the loop of `main` and in the child is not modelled. The model records only whether the child resets SIGINT. A SIGTSTP arriving in the middle of another operation is not modelled; `CatchSigstp` is a separate, atomic step.
- Output: the `printf` and `write` calls are not modelled. The notices and reports are returned as values. The byte counts passed to `write` (56 and 51 for texts of 54 and 49 characters) are not modelled.
- Memory: `malloc`, `calloc`, `free` and the NULL/garbage contents of fields that `parseUserInput` never initialises are not modelled. Those fields are modelled as absent (`None`).
- Main loop: the outer `while (true)` is not modelled. `Cycle` is one iteration of it; the program's exit after `exit` is the `Exit` action.
- Input.ParseUserInput: requires that the loop appends at most `MAXARGS` arguments. Beyond that the C code writes past `userArgs`; the model does not describe that overflow.
- Input.UserInput.BuildArgs: requires fewer than `MAXARGS` arguments. The C loop needs a NULL terminator inside `userArgs`, which only then exists.
- Smallsh.Shell.Cycle: a full table (`procNum == MAXPROCS`) followed by `exit` or a background launch reads or writes past `backgroundProcs` in the C code. The model requires a free slot for those two cases and does not describe the overflow.
- ShellModel.CycleStep: for the same two cases it requires `procNum < MAXPROCS`, through `CanStep`; every other line is modelled also with a full table.
- CommandLine.ParseFailure: a trailing `<` or `>` makes the C code dereference NULL. The model states this as an error result instead of undefined behaviour.
