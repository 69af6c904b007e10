/**
 * The shell's globals and the functions of `smallsh.c` that update them, in
 * place: `catchSigstp`, `checkBackground`, the parent's side of `runProcess`,
 * `exitProcess` and one iteration of the loop in `main`. Each method is tied
 * to the corresponding transition of `ShellModel`.
 */
module Smallsh {
  import opened Wrappers
  import opened Tokenizer
  import opened CommandLine
  import opened Input
  import opened JobTable
  import opened ShellModel

  class Shell {
    var foregroundOnly: bool
    var foregroundStatus: Status
    var backgroundProcs: array<int>
    var procNum: nat

    /** The globals as a value. */
    function State(): ShellState
      reads this, backgroundProcs
    {
      ShellState(foregroundOnly, foregroundStatus, backgroundProcs[..], procNum)
    }

    ghost predicate Valid()
      reads this, backgroundProcs
    {
      backgroundProcs.Length == MAXPROCS && Wf(State())
    }

    /** Start-up: the zero-initialised globals. */
    constructor ()
      ensures Valid() && fresh(backgroundProcs) && State() == Initial()
    {
      foregroundOnly := false;
      foregroundStatus := Exited(0);
      backgroundProcs := new int[MAXPROCS](_ => 0);
      procNum := 0;
    }

    /** `catchSigstp`: toggle foreground-only mode and write the notice chosen by the previous mode. */
    method CatchSigstp() returns (notice: Notice, message: string)
      requires Valid()
      modifies this`foregroundOnly
      ensures Valid()
      ensures State() == Sigtstp(old(State())).next && notice == Sigtstp(old(State())).notice
      ensures message == NoticeText(notice)
    {
      if foregroundOnly {
        message := "Exiting foreground only mode (& is no longer ignored)\n";
        notice := ExitingForegroundOnly;
        foregroundOnly := false;
      } else {
        message := "Entering foreground-only mode (& is now ignored)\n";
        notice := EnteringForegroundOnly;
        foregroundOnly := true;
      }
    }

    /**
     * A client of `CatchSigstp`, not a function of the C code: two calls of the
     * handler leave the globals as `SigtstpTwice` says two deliveries do.
     */
    method CatchSigstpTwice() returns (first: Notice, second: Notice)
      requires Valid()
      modifies this`foregroundOnly
      ensures Valid() && State() == old(State()) && first != second
    {
      var text;
      first, text := CatchSigstp();
      second, text := CatchSigstp();
      SigtstpTwice(old(State()));
    }

    /** The removal block of `checkBackground`: shift slots i+1 .. procNum-1 left, then decrement `procNum`. */
    method RemoveAt(i: nat)
      requires Valid() && i < procNum
      modifies backgroundProcs, this`procNum
      ensures Valid()
      ensures backgroundProcs[..] == ShiftOut(old(backgroundProcs[..]), i, old(procNum))
      ensures procNum == old(procNum) - 1
    {
      ghost var s := backgroundProcs[..];
      var n := procNum;
      var j := i;
      while j < n - 1
        invariant i <= j <= n - 1 && n <= backgroundProcs.Length
        invariant backgroundProcs[..j] == s[..i] + s[i + 1..j + 1]
        invariant backgroundProcs[j..] == s[j..]
      {
        backgroundProcs[j] := backgroundProcs[j + 1];
        assert backgroundProcs[..j + 1] == backgroundProcs[..j] + [s[j + 1]];
        assert s[i + 1..j + 2] == s[i + 1..j + 1] + [s[j + 1]];
        assert backgroundProcs[j + 1..] == s[j + 1..];
        j := j + 1;
      }
      procNum := n - 1;
      ghost var t := ShiftOut(s, i, n);
      assert backgroundProcs[..] == backgroundProcs[..j] + backgroundProcs[j..];
      assert t == t[..n - 1] + t[n - 1..];
      assert t[n - 1..] == s[n - 1..];
      forall k | 0 <= k < procNum ensures backgroundProcs[k] > 0 {
        assert backgroundProcs[k] == (s[..i] + s[i + 1..n])[k];
      }
    }

    /**
     * `checkBackground`: poll every slot below `procNum`, report and remove the
     * finished ones. The index advances after a removal as well.
     */
    method CheckBackground(poll: int -> Poll) returns (reports: seq<Report>)
      requires Valid()
      modifies backgroundProcs, this`procNum
      ensures Valid()
      ensures State() == ReapStep(old(State()), poll).next
      ensures reports == ReapStep(old(State()), poll).reports
    {
      ghost var st := State();
      ghost var goal := ReapPass(backgroundProcs[..], procNum, 0, poll);
      assert ReapStep(st, poll) == Swept(st.(slots := goal.slots, procNum := goal.count), goal.reports);
      reports := [];
      var i := 0;
      while i < procNum
        invariant Valid()
        invariant goal == Prepend(reports, ReapPass(backgroundProcs[..], procNum, i, poll))
        decreases procNum - i
      {
        var found := PollSlot(i, poll);
        PrependTwice(reports, found, ReapPass(backgroundProcs[..], procNum, i + 1, poll));
        reports := reports + found;
        i := i + 1;
      }
      assert goal == Reaped(backgroundProcs[..], procNum, reports);
    }

    /** One iteration of the loop in `checkBackground`: poll slot i, and report and remove it when it has finished. */
    method PollSlot(i: nat, poll: int -> Poll) returns (found: seq<Report>)
      requires Valid() && i < procNum
      modifies backgroundProcs, this`procNum
      ensures Valid() && procNum <= old(procNum)
      ensures Prepend(found, ReapPass(backgroundProcs[..], procNum, i + 1, poll))
           == ReapPass(old(backgroundProcs[..]), old(procNum), i, poll)
    {
      var pid := backgroundProcs[i];
      match poll(pid) {
        case Running =>
          found := [];
        case Done(st) =>
          found := [Report(pid, st)];
          RemoveAt(i);
      }
    }

    /**
     * The parent's side of `runProcess` for the child `pid`, with `waited`
     * standing for the blocking `waitpid`. In the child, only `inBackground`
     * decides whether SIGINT goes back to its default.
     */
    method RunProcess(ui: UserInput, pid: int, waited: Status) returns (launch: Launch)
      requires Valid() && pid > 0
      requires ui.inBackground && !foregroundOnly ==> procNum < MAXPROCS
      modifies this, backgroundProcs
      ensures Valid() && backgroundProcs == old(backgroundProcs)
      ensures var l := LaunchStep(old(State()), ui.inBackground, pid, waited);
        State() == l.next && launch == l.launch
    {
      var resetsSigint := !ui.inBackground;
      if ui.inBackground && !foregroundOnly {
        backgroundProcs[procNum] := pid;
        procNum := procNum + 1;
        launch := Launch(resetsSigint, Background(pid));
      } else {
        foregroundStatus := waited;
        var report := if waited.Signaled? then Some(waited.signal) else None;
        launch := Launch(resetsSigint, Foreground(waited, report));
      }
    }

    /** `exitProcess`: the pids it sends SIGINT to, from slot `procNum` down to slot 0. */
    method ExitProcess() returns (signalled: seq<int>)
      requires Valid() && procNum < MAXPROCS
      ensures signalled == ExitTargets(backgroundProcs[..], procNum)
    {
      signalled := [];
      var i: int := procNum;
      while i > -1
        invariant -1 <= i <= procNum
        invariant |signalled| == procNum - i
        invariant forall k :: 0 <= k < |signalled| ==> signalled[k] == backgroundProcs[procNum - k]
      {
        signalled := signalled + [backgroundProcs[i]];
        i := i - 1;
      }
    }

    /**
     * One iteration of the loop in `main`: read (here: take) a line, parse it,
     * build the argument vector, dispatch, reap, clear.
     */
    method Cycle(line: string, w: World) returns (action: Action, reports: seq<Report>)
      requires Valid() && CanStep(State(), line, w)
      requires Tokens(line) != [] ==> ArgsAppended(Tokens(line)[1..]) <= MAXARGS
      requires ParseLine(line).Ok? ==> |ParseLine(line).value.userArgs| < MAXARGS
      modifies this, backgroundProcs
      ensures Valid() && backgroundProcs == old(backgroundProcs)
      ensures var r := CycleStep(old(State()), line, w);
        State() == r.next && action == r.action && reports == r.reports
    {
      ghost var st := State();
      var parsed := ParseUserInput(line);
      if parsed.Err? {
        return Malformed(parsed.error), [];
      }
      var ui := parsed.value;
      ghost var c := ParseLine(line).value;
      ui.BuildArgs();
      assert ui.command == c.command && ui.userArgs == c.userArgs && ui.inBackground == c.inBackground;
      match Classify(ui.command)
      case Comment =>
        ui.Clear();
        return Skipped, [];
      case ExitBuiltin =>
        var signalled := ExitProcess();
        return Exit(signalled), [];
      case StatusBuiltin =>
        action := ShowStatus(StatusValue(foregroundStatus));
        reports := CheckBackground(w.poll);
        ui.Clear();
      case CdBuiltin =>
        action := ChangeDir(CdTargetOf(ui.userArgs, w.home), w.chdirOk);
        reports := CheckBackground(w.poll);
        ui.Clear();
      case Program =>
        var launch := RunProcess(ui, w.pid, w.waited);
        assert State() == LaunchStep(st, c.inBackground, w.pid, w.waited).next;
        action := Run(launch);
        reports := CheckBackground(w.poll);
        ui.Clear();
    }
  }
}
