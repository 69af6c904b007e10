/**
 * The shell's global state as a value, and the transitions of one dispatch
 * cycle of `main`: the mode toggle of `catchSigstp`, the job-table part of
 * `runProcess`, the reaping pass of `checkBackground`, the built-ins and the
 * `continue` for blank and comment lines. Process creation, waiting,
 * `chdir` and `getenv` are inputs (a `World`).
 */
module ShellModel {
  import opened Wrappers
  import opened Sequences
  import opened Tokenizer
  import opened CommandLine
  import opened JobTable

  /** The globals `foregroundOnly`, `foregroundStatus`, `backgroundProcs` and `procNum`. */
  datatype ShellState = ShellState(
    foregroundOnly: bool,
    foregroundStatus: Status,
    slots: seq<int>,
    procNum: nat)

  /** The table has MAXPROCS slots, `procNum` of them live, and each live slot holds a child's pid. */
  predicate Wf(st: ShellState) {
    |st.slots| == MAXPROCS && st.procNum <= MAXPROCS
    && forall k :: 0 <= k < st.procNum ==> st.slots[k] > 0
  }

  /** The live background jobs, in table order. */
  function Jobs(st: ShellState): seq<int>
    requires st.procNum <= |st.slots|
  {
    st.slots[..st.procNum]
  }

  /** The globals when the shell starts: all zero, and a zero wait status decodes as exit code 0. */
  function Initial(): (st: ShellState)
    ensures Wf(st) && Jobs(st) == [] && !st.foregroundOnly
  {
    ShellState(false, Exited(0), seq(MAXPROCS, _ => 0), 0)
  }

  // ---------------------------------------------------------------------------
  // Foreground-only mode (`catchSigstp`)

  /** Which of the two notices the handler writes. */
  datatype Notice = EnteringForegroundOnly | ExitingForegroundOnly

  /** The text of the notice (the handler's `write` byte counts are not modelled). */
  function NoticeText(n: Notice): string {
    match n
    case EnteringForegroundOnly => "Entering foreground-only mode (& is now ignored)\n"
    case ExitingForegroundOnly => "Exiting foreground only mode (& is no longer ignored)\n"
  }

  datatype Toggled = Toggled(next: ShellState, notice: Notice)

  /** One delivery of SIGTSTP. */
  function Sigtstp(st: ShellState): (r: Toggled)
    ensures r.next.foregroundOnly != st.foregroundOnly
    ensures r.next.(foregroundOnly := st.foregroundOnly) == st
    ensures r.notice == EnteringForegroundOnly <==> !st.foregroundOnly
  {
    if st.foregroundOnly then Toggled(st.(foregroundOnly := false), ExitingForegroundOnly)
    else Toggled(st.(foregroundOnly := true), EnteringForegroundOnly)
  }

  /** Two deliveries restore the state; the two notices are one of each. */
  lemma SigtstpTwice(st: ShellState)
    ensures Sigtstp(Sigtstp(st).next).next == st
    ensures Sigtstp(Sigtstp(st).next).notice != Sigtstp(st).notice
  {
  }

  // ---------------------------------------------------------------------------
  // The parent's side of `runProcess`, once the child exists

  /** Where the child runs; a foreground child's status is reported when a signal ended it. */
  datatype Placement = Background(pid: int) | Foreground(status: Status, signalReport: Option<int>)

  /** Whether the child resets SIGINT to its default before `execvp`, and where it runs. */
  datatype Launch = Launch(childResetsSigint: bool, placement: Placement)

  datatype Launched = Launched(next: ShellState, launch: Launch)

  /**
   * The child `pid` has been created; `waited` is what `waitpid(pid, &status, 0)`
   * would report. Appending at `procNum` needs a free slot.
   */
  function LaunchStep(st: ShellState, inBackground: bool, pid: int, waited: Status): (r: Launched)
    requires Wf(st) && pid > 0
    requires inBackground && !st.foregroundOnly ==> st.procNum < MAXPROCS
    ensures Wf(r.next) && r.next.foregroundOnly == st.foregroundOnly
    ensures r.launch.childResetsSigint == !inBackground
    ensures r.launch.placement.Background? <==> inBackground && !st.foregroundOnly
    ensures r.launch.placement.Background? ==>
      r.launch.placement.pid == pid && Jobs(r.next) == Jobs(st) + [pid]
      && r.next.foregroundStatus == st.foregroundStatus
    ensures r.launch.placement.Foreground? ==>
      r.next.slots == st.slots && r.next.procNum == st.procNum && r.next.foregroundStatus == waited
      && (r.launch.placement.signalReport.Some? <==> waited.Signaled?)
      && (waited.Signaled? ==> r.launch.placement.signalReport == Some(waited.signal))
  {
    if inBackground && !st.foregroundOnly then
      var next := st.(slots := st.slots[st.procNum := pid], procNum := st.procNum + 1);
      assert Jobs(next) == Jobs(st) + [pid];
      Launched(next, Launch(!inBackground, Background(pid)))
    else
      var report := if waited.Signaled? then Some(waited.signal) else None;
      Launched(st.(foregroundStatus := waited), Launch(!inBackground, Foreground(waited, report)))
  }

  // ---------------------------------------------------------------------------
  // `checkBackground`

  datatype Swept = Swept(next: ShellState, reports: seq<Report>)

  /** One pass of `checkBackground`, with `poll` standing for `waitpid(pid, &status, WNOHANG)`. */
  function ReapStep(st: ShellState, poll: int -> Poll): (r: Swept)
    requires Wf(st)
    ensures Wf(r.next) && r.next.procNum <= st.procNum
    ensures Jobs(r.next) == Survivors(Jobs(st), poll, false)
    ensures r.reports == Finished(Jobs(st), poll, false)
    ensures r.next.foregroundOnly == st.foregroundOnly && r.next.foregroundStatus == st.foregroundStatus
  {
    var p := ReapPass(st.slots, st.procNum, 0, poll);
    ReapPassFilters(st.slots, st.procNum, poll);
    var next := st.(slots := p.slots, procNum := p.count);
    forall k | 0 <= k < p.count ensures p.slots[k] > 0 {
      assert p.slots[k] == Jobs(next)[k];
      SubseqMember(Jobs(next), Jobs(st), p.slots[k]);
    }
    Swept(next, p.reports)
  }

  /** With no job newly finished, reaping changes nothing and prints nothing, however often it runs. */
  lemma ReapIdle(st: ShellState, poll: int -> Poll)
    requires Wf(st)
    requires forall k :: 0 <= k < st.procNum ==> poll(st.slots[k]).Running?
    ensures ReapStep(st, poll) == Swept(st, [])
  {
    ReapPassIdle(st.slots, st.procNum, 0, poll);
  }

  // ---------------------------------------------------------------------------
  // Dispatch in `main`

  /** The branches of `main` after parsing. */
  datatype Builtin = Comment | ExitBuiltin | StatusBuiltin | CdBuiltin | Program

  /** Blank or `#…` first, then the exact names `exit`, `status`, `cd`, in that order. */
  function Classify(command: Option<string>): Builtin {
    match command
    case None => Comment
    case Some(name) =>
      if |name| > 0 && name[0] == '#' then Comment
      else if name == "exit" then ExitBuiltin
      else if name == "status" then StatusBuiltin
      else if name == "cd" then CdBuiltin
      else Program
  }

  /** The number `status` prints: the exit code after a normal exit, else the terminating signal. */
  function StatusValue(st: Status): int {
    match st
    case Exited(code) => code
    case Signaled(sig) => sig
  }

  /** The directory `changeDirectory` passes to `chdir`: HOME (possibly unset) or the first argument. */
  datatype CdTarget = HomeDir(home: Option<string>) | ArgDir(path: string)

  function CdTargetOf(userArgs: seq<string>, home: Option<string>): CdTarget {
    if userArgs == [] then HomeDir(home) else ArgDir(userArgs[0])
  }

  /** The line is `exit`, or a background launch outside foreground-only mode: both use slot `procNum`. */
  predicate NeedsSlot(st: ShellState, line: string) {
    match ParseLine(line)
    case Err(_) => false
    case Ok(c) =>
      Classify(c.command) == ExitBuiltin
      || (Classify(c.command) == Program && c.inBackground && !st.foregroundOnly)
  }

  /** What one cycle needs: a well-formed state, a child pid, and slot `procNum` when the line uses it. */
  predicate CanStep(st: ShellState, line: string, w: World) {
    Wf(st) && w.pid > 0 && (NeedsSlot(st, line) ==> st.procNum < MAXPROCS)
  }

  /** What one cycle does, apart from reaping. */
  datatype Action =
    | Skipped
    | Malformed(error: ParseError)
    | Exit(signalled: seq<int>)
    | ShowStatus(value: int)
    | ChangeDir(target: CdTarget, found: bool)
    | Run(launch: Launch)

  /**
   * The outside world for one cycle: `getenv("HOME")`, whether `chdir`
   * succeeds, the pid `fork` returns to the parent, what the blocking
   * `waitpid` reports and what each non-blocking `waitpid` reports.
   */
  datatype World = World(home: Option<string>, chdirOk: bool, pid: int, waited: Status, poll: int -> Poll)

  datatype CycleResult = CycleResult(next: ShellState, action: Action, reports: seq<Report>)

  /**
   * One iteration of the loop in `main` on the line `line`. A blank or comment
   * line ends the iteration at the `continue`, before `checkBackground`; `exit`
   * leaves the loop; every other command is followed by one reaping pass. A
   * line ending in `<` or `>` makes the source dereference NULL; here the cycle
   * reports it and changes nothing. `exitProcess` reads slot `procNum`, and a
   * background launch writes it, so for those two that slot must exist.
   */
  function CycleStep(st: ShellState, line: string, w: World): (r: CycleResult)
    requires CanStep(st, line, w)
    ensures Wf(r.next)
  {
    match ParseLine(line)
    case Err(e) => CycleResult(st, Malformed(e), [])
    case Ok(c) =>
      match Classify(c.command)
      case Comment => CycleResult(st, Skipped, [])
      case ExitBuiltin => CycleResult(st, Exit(ExitTargets(st.slots, st.procNum)), [])
      case StatusBuiltin =>
        var s := ReapStep(st, w.poll);
        CycleResult(s.next, ShowStatus(StatusValue(st.foregroundStatus)), s.reports)
      case CdBuiltin =>
        var s := ReapStep(st, w.poll);
        CycleResult(s.next, ChangeDir(CdTargetOf(c.userArgs, w.home), w.chdirOk), s.reports)
      case Program =>
        var l := LaunchStep(st, c.inBackground, w.pid, w.waited);
        var s := ReapStep(l.next, w.poll);
        CycleResult(s.next, Run(l.launch), s.reports)
  }

  // ---------------------------------------------------------------------------
  // Properties of a cycle

  /** A blank line or one whose first token starts with `#` does nothing at all, not even reaping. */
  lemma BlankOrCommentSkips(st: ShellState, line: string, w: World)
    requires Wf(st) && w.pid > 0
    requires ParseLine(line).Ok?
    requires Tokens(line) == [] || Tokens(line)[0][0] == '#'
    ensures CanStep(st, line, w)
    ensures CycleStep(st, line, w) == CycleResult(st, Skipped, [])
  {
    ParseCommand(Tokens(line));
  }

  /** The built-ins are the exact first tokens `exit`, `status` and `cd`. */
  lemma BuiltinDispatch(st: ShellState, line: string, w: World)
    requires CanStep(st, line, w)
    requires ParseLine(line).Ok? && Tokens(line) != []
    ensures var r := CycleStep(st, line, w);
      && (Tokens(line)[0] == "exit" ==>
            st.procNum < MAXPROCS && r == CycleResult(st, Exit(ExitTargets(st.slots, st.procNum)), []))
      && (Tokens(line)[0] == "status" ==>
            r.action == ShowStatus(StatusValue(st.foregroundStatus))
            && r.next == ReapStep(st, w.poll).next && r.reports == ReapStep(st, w.poll).reports)
      && (Tokens(line)[0] == "cd" ==>
            r.action == ChangeDir(CdTargetOf(ParseLine(line).value.userArgs, w.home), w.chdirOk)
            && r.next == ReapStep(st, w.poll).next && r.reports == ReapStep(st, w.poll).reports)
  {
    ParseCommand(Tokens(line));
  }

  /** `cd` alone goes to HOME; `cd dir` goes to dir. */
  lemma CdTargets(st: ShellState, dir: string, w: World)
    requires Wf(st) && w.pid > 0
    requires IsWord(dir) && !IsOperator(dir)
    ensures CanStep(st, "cd", w) && CanStep(st, "cd " + dir, w)
    ensures CycleStep(st, "cd", w).action == ChangeDir(HomeDir(w.home), w.chdirOk)
    ensures CycleStep(st, "cd " + dir, w).action == ChangeDir(ArgDir(dir), w.chdirOk)
  {
    TokensOfWord("cd");
    assert ["cd"][1..] == [];
    assert "cd " + dir == "cd" + " " + dir;
    TokensSplit("cd", dir);
    TokensOfWord(dir);
    var toks := ["cd", dir];
    assert Tokens("cd " + dir) == toks;
    assert toks[1..] == [dir] + [];
    ParseRestPlain(Started("cd"), [dir], []);
    assert [] + [dir] == [dir];
    assert ParseLine("cd " + dir) == Ok(Started("cd").(userArgs := [dir]));
  }

  /** Before any foreground command has run, `status` reports 0. */
  lemma StatusAtStart(w: World)
    requires w.pid > 0
    ensures CanStep(Initial(), "status", w)
    ensures CycleStep(Initial(), "status", w).action == ShowStatus(0)
  {
    TokensOfWord("status");
    assert ["status"][1..] == [];
  }

  /** A command that ran in the foreground is what a following `status` reports. */
  lemma StatusAfterForeground(st: ShellState, line: string, w: World, w2: World)
    requires Wf(st) && w.pid > 0 && w2.pid > 0
    requires ParseLine(line).Ok? && Classify(ParseLine(line).value.command) == Program
    requires !ParseLine(line).value.inBackground || st.foregroundOnly
    ensures CanStep(st, line, w) && CanStep(CycleStep(st, line, w).next, "status", w2)
    ensures CycleStep(CycleStep(st, line, w).next, "status", w2).action == ShowStatus(StatusValue(w.waited))
  {
    TokensOfWord("status");
    assert ["status"][1..] == [];
  }

  /** In foreground-only mode a trailing `&` is ignored: the shell waits, records the status and adds no job. */
  lemma ForegroundOnlyWaits(st: ShellState, line: string, w: World)
    requires Wf(st) && w.pid > 0 && st.foregroundOnly
    requires ParseLine(line).Ok? && Classify(ParseLine(line).value.command) == Program
    ensures CanStep(st, line, w)
    ensures var r := CycleStep(st, line, w);
      r.action.Run? && r.action.launch.placement.Foreground?
      && r.next.foregroundStatus == w.waited && r.next.foregroundOnly
      && Subseq(Jobs(r.next), Jobs(st))
  {
  }

  /**
   * The child's SIGINT reset follows `inBackground` alone: in foreground-only
   * mode a command with a trailing `&` is waited for, yet keeps SIGINT ignored.
   */
  lemma ForegroundOnlyAmpersandKeepsSigintIgnored(st: ShellState, line: string, w: World)
    requires Wf(st) && w.pid > 0 && st.foregroundOnly
    requires ParseLine(line).Ok? && Classify(ParseLine(line).value.command) == Program
    requires ParseLine(line).value.inBackground
    ensures CanStep(st, line, w)
    ensures var r := CycleStep(st, line, w);
      r.action.Run? && r.action.launch.placement.Foreground? && !r.action.launch.childResetsSigint
  {
  }

  /** A background launch outside foreground-only mode is in the table after the cycle unless its poll says it is done. */
  lemma BackgroundJobTracked(st: ShellState, line: string, w: World)
    requires CanStep(st, line, w) && !st.foregroundOnly
    requires ParseLine(line).Ok? && Classify(ParseLine(line).value.command) == Program
    requires ParseLine(line).value.inBackground
    requires w.poll(w.pid).Running?
    ensures var r := CycleStep(st, line, w);
      r.action == Run(Launch(false, Background(w.pid))) && w.pid in Jobs(r.next)
  {
    var l := LaunchStep(st, true, w.pid, w.waited);
    var jobs := Jobs(l.next);
    assert jobs[st.procNum] == w.pid;
    RunningSurvive(jobs, w.poll, false, st.procNum);
  }

  /**
   * Across any cycle the table stays in order: the jobs afterwards are a
   * sub-sequence of the jobs before, followed by the new child's pid.
   */
  lemma CycleKeepsOrder(st: ShellState, line: string, w: World)
    requires CanStep(st, line, w)
    ensures var r := CycleStep(st, line, w);
      Subseq(Jobs(r.next), Jobs(st) + [w.pid])
      && (!(r.action.Run? && r.action.launch.placement.Background?) ==> Subseq(Jobs(r.next), Jobs(st)))
  {
    var r := CycleStep(st, line, w);
    if r.action.Run? && r.action.launch.placement.Background? {
      assert Subseq(Jobs(r.next), Jobs(st) + [w.pid]);
    } else {
      if r.next == st {
        SubseqRefl(Jobs(st));
      }
      assert Subseq(Jobs(r.next), Jobs(st));
      SubseqWeaken(Jobs(r.next), Jobs(st), w.pid);
    }
  }
}
