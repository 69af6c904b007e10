/**
 * The background job table `backgroundProcs[0..MAXPROCS)` with its count
 * `procNum`, as values: the slots are the whole array, including the stale
 * slots at and after `procNum`.
 */
module JobTable {
  import opened Sequences

  /** Capacity of `backgroundProcs`. */
  const MAXPROCS: nat := 200

  /** How a child ended, as `WIFEXITED`/`WEXITSTATUS`/`WTERMSIG` decode it. */
  datatype Status = Exited(code: int) | Signaled(signal: int)

  /** What a `waitpid(pid, &status, WNOHANG)` call reports: 0 (running) or anything else with a status. */
  datatype Poll = Running | Done(status: Status)

  /** One "background pid … is done" line. */
  datatype Report = Report(pid: int, status: Status)

  /** The slots, the count and the reports after a pass of `checkBackground`. */
  datatype Reaped = Reaped(slots: seq<int>, count: nat, reports: seq<Report>)

  /**
   * The removal block of `checkBackground`: slots i+1 .. n-1 move one to the
   * left; slot n-1 keeps its old value and the slots after it are untouched.
   */
  function ShiftOut(s: seq<int>, i: nat, n: nat): (t: seq<int>)
    requires i < n <= |s|
    ensures |t| == |s|
    ensures t[..n - 1] == s[..i] + s[i + 1..n]
    ensures forall k :: n - 1 <= k < |s| ==> t[k] == s[k]
  {
    s[..i] + s[i + 1..n] + s[n - 1..]
  }

  /**
   * The loop of `checkBackground` from index `i`, on slots `s` with count `n`.
   * After a removal at `i` the index still advances, so the entry that moved
   * into slot `i` is not polled in this pass.
   */
  function ReapPass(s: seq<int>, n: nat, i: nat, poll: int -> Poll): (r: Reaped)
    requires n <= |s|
    ensures |r.slots| == |s| && r.count <= n
    decreases if i <= n then n - i else 0
  {
    if i >= n then Reaped(s, n, [])
    else match poll(s[i])
      case Running => ReapPass(s, n, i + 1, poll)
      case Done(st) =>
        var r := ReapPass(ShiftOut(s, i, n), n - 1, i + 1, poll);
        Reaped(r.slots, r.count, [Report(s[i], st)] + r.reports)
  }

  /** The outcome of a pass whose earlier steps already reported `rs`. */
  function Prepend(rs: seq<Report>, r: Reaped): Reaped
  {
    Reaped(r.slots, r.count, rs + r.reports)
  }

  lemma PrependTwice(a: seq<Report>, b: seq<Report>, r: Reaped)
    ensures Prepend(a, Prepend(b, r)) == Prepend(a + b, r)
  {
    assert a + (b + r.reports) == (a + b) + r.reports;
  }

  // ---------------------------------------------------------------------------
  // A reference definition of one pass, as a filter over the live jobs

  /**
   * The jobs a pass keeps. An entry is polled unless the entry before it was
   * just removed (`skip`); it is kept when it is not polled or still running.
   */
  function Survivors(jobs: seq<int>, poll: int -> Poll, skip: bool): (r: seq<int>)
    ensures Subseq(r, jobs)
  {
    if jobs == [] then []
    else if skip || poll(jobs[0]).Running? then [jobs[0]] + Survivors(jobs[1..], poll, false)
    else
      var r := Survivors(jobs[1..], poll, true);
      assert Subseq(r, jobs[1..]);
      r
  }

  /** The jobs a pass reports as done, in table order, with their status. */
  function Finished(jobs: seq<int>, poll: int -> Poll, skip: bool): seq<Report>
  {
    if jobs == [] then []
    else if skip || poll(jobs[0]).Running? then Finished(jobs[1..], poll, false)
    else [Report(jobs[0], poll(jobs[0]).status)] + Finished(jobs[1..], poll, true)
  }

  /** The array pass computes the reference filter on the live slots. */
  lemma {:induction false} ReapPassSweeps(s: seq<int>, n: nat, i: nat, poll: int -> Poll)
    requires i <= n <= |s|
    ensures var r := ReapPass(s, n, i, poll);
      i <= r.count
      && r.slots[..r.count] == s[..i] + Survivors(s[i..n], poll, false)
      && r.reports == Finished(s[i..n], poll, false)
    decreases n - i
  {
    if i == n {
      assert s[i..n] == [];
    } else if poll(s[i]).Running? {
      assert ReapPass(s, n, i, poll) == ReapPass(s, n, i + 1, poll);
      ReapPassSweeps(s, n, i + 1, poll);
      RunningStep(s, n, i, poll);
    } else if i + 1 < n {
      var t := ShiftOut(s, i, n);
      var r := ReapPass(t, n - 1, i + 1, poll);
      assert ReapPass(s, n, i, poll) == Reaped(r.slots, r.count, [Report(s[i], poll(s[i]).status)] + r.reports);
      ReapPassSweeps(t, n - 1, i + 1, poll);
      DoneStep(s, n, i, poll);
    } else {
      DoneLastStep(s, n, i, poll);
    }
  }

  lemma RunningStep(s: seq<int>, n: nat, i: nat, poll: int -> Poll)
    requires i < n <= |s| && poll(s[i]).Running?
    ensures s[..i] + Survivors(s[i..n], poll, false) == s[..i + 1] + Survivors(s[i + 1..n], poll, false)
    ensures Finished(s[i..n], poll, false) == Finished(s[i + 1..n], poll, false)
  {
    assert s[i..n][0] == s[i];
    assert s[i..n][1..] == s[i + 1..n];
    assert s[..i + 1] == s[..i] + [s[i]];
  }

  lemma DoneStep(s: seq<int>, n: nat, i: nat, poll: int -> Poll)
    requires i + 1 < n <= |s| && poll(s[i]).Done?
    ensures var t := ShiftOut(s, i, n);
      && t[..i + 1] + Survivors(t[i + 1..n - 1], poll, false) == s[..i] + Survivors(s[i..n], poll, false)
      && [Report(s[i], poll(s[i]).status)] + Finished(t[i + 1..n - 1], poll, false)
         == Finished(s[i..n], poll, false)
  {
    var t := ShiftOut(s, i, n);
    var jobs := s[i..n];
    assert jobs[0] == s[i];
    assert jobs[1..][0] == s[i + 1];
    assert jobs[1..][1..] == s[i + 2..n];
    assert t[..i + 1] == s[..i] + [s[i + 1]] by {
      assert t[..i + 1] == t[..n - 1][..i + 1];
    }
    assert t[i + 1..n - 1] == s[i + 2..n] by {
      assert t[i + 1..n - 1] == t[..n - 1][i + 1..];
    }
    assert Survivors(jobs, poll, false) == [s[i + 1]] + Survivors(s[i + 2..n], poll, false);
  }

  lemma DoneLastStep(s: seq<int>, n: nat, i: nat, poll: int -> Poll)
    requires i + 1 == n <= |s| && poll(s[i]).Done?
    ensures var r := ReapPass(s, n, i, poll);
      i <= r.count
      && r.slots[..r.count] == s[..i] + Survivors(s[i..n], poll, false)
      && r.reports == Finished(s[i..n], poll, false)
  {
    var t := ShiftOut(s, i, n);
    assert t[..n - 1] == s[..i];
    var jobs := s[i..n];
    assert jobs[0] == s[i];
    assert jobs[1..] == [];
  }

  /** A whole pass of `checkBackground`, from index 0. */
  lemma ReapPassFilters(s: seq<int>, n: nat, poll: int -> Poll)
    requires n <= |s|
    ensures var r := ReapPass(s, n, 0, poll);
      r.slots[..r.count] == Survivors(s[..n], poll, false)
      && r.reports == Finished(s[..n], poll, false)
  {
    ReapPassSweeps(s, n, 0, poll);
    assert s[0..n] == s[..n];
  }

  // ---------------------------------------------------------------------------
  // Properties of a pass

  /** The pids of some reports, in order. */
  function Pids(rs: seq<Report>): seq<int>
  {
    if rs == [] then [] else [rs[0].pid] + Pids(rs[1..])
  }

  /**
   * Every job is either kept or reported, never both: the jobs are, as a
   * multiset, the survivors together with the reported pids.
   */
  lemma {:induction false} SweepPartition(jobs: seq<int>, poll: int -> Poll, skip: bool)
    ensures multiset(jobs) == multiset(Survivors(jobs, poll, skip)) + multiset(Pids(Finished(jobs, poll, skip)))
    ensures |Survivors(jobs, poll, skip)| + |Finished(jobs, poll, skip)| == |jobs|
  {
    if jobs != [] {
      var kept := skip || poll(jobs[0]).Running?;
      SweepPartition(jobs[1..], poll, !kept);
      assert jobs == [jobs[0]] + jobs[1..];
      if !kept {
        var f := Finished(jobs[1..], poll, true);
        var rep := Report(jobs[0], poll(jobs[0]).status);
        assert ([rep] + f)[1..] == f;
        assert Pids([rep] + f) == [jobs[0]] + Pids(f);
      }
    }
  }

  /** A job whose poll says it is still running is kept. */
  lemma {:induction false} RunningSurvive(jobs: seq<int>, poll: int -> Poll, skip: bool, k: nat)
    requires k < |jobs| && poll(jobs[k]).Running?
    ensures jobs[k] in Survivors(jobs, poll, skip)
  {
    if k > 0 {
      RunningSurvive(jobs[1..], poll, !(skip || poll(jobs[0]).Running?), k - 1);
    }
  }

  /** A reported job was in the table and its poll said it was done, with that status. */
  lemma {:induction false} FinishedWereDone(jobs: seq<int>, poll: int -> Poll, skip: bool, k: nat)
    requires k < |Finished(jobs, poll, skip)|
    ensures var rep := Finished(jobs, poll, skip)[k];
      rep.pid in jobs && poll(rep.pid) == Done(rep.status)
  {
    var f := Finished(jobs, poll, skip);
    if skip || poll(jobs[0]).Running? {
      FinishedWereDone(jobs[1..], poll, false, k);
    } else if k > 0 {
      FinishedWereDone(jobs[1..], poll, true, k - 1);
    }
  }

  /** When no poll reports a job done, a pass changes nothing and reports nothing. */
  lemma {:induction false} ReapPassIdle(s: seq<int>, n: nat, i: nat, poll: int -> Poll)
    requires n <= |s|
    requires forall k :: i <= k < n ==> poll(s[k]).Running?
    ensures ReapPass(s, n, i, poll) == Reaped(s, n, [])
    decreases if i <= n then n - i else 0
  {
    if i < n {
      ReapPassIdle(s, n, i + 1, poll);
    }
  }

  /**
   * When the pass removes the job in slot `i`, the job that moves into slot
   * `i` is not polled: it is kept in this pass whatever its own poll says,
   * and the reports go on with the jobs after it.
   */
  lemma SkipAfterRemoval(s: seq<int>, n: nat, i: nat, poll: int -> Poll)
    requires i + 1 < n <= |s| && poll(s[i]).Done?
    ensures var r := ReapPass(s, n, i, poll);
      && i < r.count && r.slots[i] == s[i + 1]
      && r.reports == [Report(s[i], poll(s[i]).status)] + Finished(s[i + 2..n], poll, false)
  {
    var t := ShiftOut(s, i, n);
    ReapPassSweeps(t, n - 1, i + 1, poll);
    var r := ReapPass(t, n - 1, i + 1, poll);
    assert t[i] == t[..n - 1][i];
    assert t[i + 1..n - 1] == s[i + 2..n] by {
      assert t[i + 1..n - 1] == t[..n - 1][i + 1..];
    }
    assert r.slots[i] == r.slots[..r.count][i];
  }

  /** The job in the last live slot before a pass, if anything was removed, is in slot `procNum` after it. */
  lemma {:induction false} StaleSlotAfterPass(s: seq<int>, n: nat, i: nat, poll: int -> Poll)
    requires i <= n <= |s|
    ensures var r := ReapPass(s, n, i, poll);
      r.count < n ==> r.slots[r.count] == s[n - 1]
    decreases n - i
  {
    if i < n && poll(s[i]).Running? {
      StaleSlotAfterPass(s, n, i + 1, poll);
    } else if i < n {
      var t := ShiftOut(s, i, n);
      ReapPassFrame(t, n - 1, i + 1, poll, n - 1);
      if i + 1 < n {
        StaleSlotAfterPass(t, n - 1, i + 1, poll);
        assert t[n - 2] == t[..n - 1][n - 2];
      }
    }
  }

  /** A pass never touches the slots from `n` on. */
  lemma {:induction false} ReapPassFrame(s: seq<int>, n: nat, i: nat, poll: int -> Poll, k: nat)
    requires n <= k < |s|
    ensures ReapPass(s, n, i, poll).slots[k] == s[k]
    decreases if i <= n then n - i else 0
  {
    if i < n {
      var t := PassStepSlots(s, n, i, poll);
      ReapPassFrame(t, if poll(s[i]).Running? then n else n - 1, i + 1, poll, k);
    }
  }

  /** The slots after one step of the pass, and the step's effect on them. */
  function PassStepSlots(s: seq<int>, n: nat, i: nat, poll: int -> Poll): (t: seq<int>)
    requires i < n <= |s|
    ensures |t| == |s| && forall k :: n <= k < |s| ==> t[k] == s[k]
    ensures poll(s[i]).Running? ==> ReapPass(s, n, i, poll) == ReapPass(t, n, i + 1, poll)
    ensures poll(s[i]).Done? ==> ReapPass(s, n, i, poll).slots == ReapPass(t, n - 1, i + 1, poll).slots
  {
    if poll(s[i]).Running? then s else ShiftOut(s, i, n)
  }

  /** A job still running in the last slot is the last survivor. */
  lemma {:induction false} SurvivorsLast(jobs: seq<int>, poll: int -> Poll, skip: bool)
    requires jobs != [] && poll(jobs[|jobs| - 1]).Running?
    ensures var r := Survivors(jobs, poll, skip);
      r != [] && r[|r| - 1] == jobs[|jobs| - 1]
    decreases |jobs|
  {
    if |jobs| > 1 {
      SurvivorsLast(jobs[1..], poll, !(skip || poll(jobs[0]).Running?));
    }
  }

  // ---------------------------------------------------------------------------
  // exitProcess

  /** The pids `exitProcess` signals: slots `n` down to 0, one more than the live jobs. */
  function ExitTargets(s: seq<int>, n: nat): (r: seq<int>)
    requires n < |s|
    ensures |r| == n + 1
    ensures forall k :: 0 <= k <= n ==> r[k] == s[n - k]
  {
    if n == 0 then [s[0]] else [s[n]] + ExitTargets(s, n - 1)
  }

  /** Every live job is signalled, and so is slot `n`, which holds no live job. */
  lemma ExitSignalsAllJobs(s: seq<int>, n: nat)
    requires n < |s|
    ensures forall k :: 0 <= k < n ==> s[k] in ExitTargets(s, n)
    ensures ExitTargets(s, n)[0] == s[n]
    ensures forall k :: 0 <= k < n ==> ExitTargets(s, n)[n - k] == s[k]
  {
    var r := ExitTargets(s, n);
    forall k | 0 <= k < n ensures s[k] in r {
      assert r[n - k] == s[k];
    }
  }

  /**
   * After a pass that removed a job, `exitProcess` first signals the pid that
   * was last in the table before the pass, even when that job was reaped.
   */
  lemma ExitSignalsOldLast(s: seq<int>, n: nat, poll: int -> Poll)
    requires n <= |s|
    ensures var r := ReapPass(s, n, 0, poll);
      r.count < n ==> ExitTargets(r.slots, r.count)[0] == s[n - 1]
  {
    StaleSlotAfterPass(s, n, 0, poll);
  }

  /**
   * When a pass removes a job and the last job is still running, that job is
   * both the last live slot and the stale slot `procNum`, so `exitProcess`
   * signals it twice.
   */
  lemma ExitSignalsShiftedPidTwice(s: seq<int>, n: nat, poll: int -> Poll)
    requires 0 < n <= |s| && poll(s[n - 1]).Running? && Finished(s[..n], poll, false) != []
    ensures var r := ReapPass(s, n, 0, poll);
      0 < r.count < n && ExitTargets(r.slots, r.count)[..2] == [s[n - 1], s[n - 1]]
  {
    LastJobStaysLast(s, n, poll);
    StaleSlotAfterPass(s, n, 0, poll);
  }

  /** When a pass removes a job while the last job is still running, that job ends the shorter table. */
  lemma LastJobStaysLast(s: seq<int>, n: nat, poll: int -> Poll)
    requires 0 < n <= |s| && poll(s[n - 1]).Running? && Finished(s[..n], poll, false) != []
    ensures var r := ReapPass(s, n, 0, poll);
      0 < r.count < n && r.slots[r.count - 1] == s[n - 1]
  {
    var r := ReapPass(s, n, 0, poll);
    var jobs := s[..n];
    ReapPassFilters(s, n, poll);
    SweepPartition(jobs, poll, false);
    SurvivorsLast(jobs, poll, false);
    assert |r.slots[..r.count]| == r.count;
    assert r.slots[r.count - 1] == r.slots[..r.count][r.count - 1];
  }
}
