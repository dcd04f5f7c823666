/** The shell's globals as one object and its handlers and main-loop
    branches as methods that change them in place, scan by scan, as the C
    code does. Each method is proved to leave exactly the state the
    corresponding function of module Jobs describes. */
module JobControl {
  import opened Common
  import opened Parsing
  import opened Jobs
  import opened Scans

  /** The prefix fact every scan step needs. */
  lemma PrefixStep(s: seq<Job>, i: nat)
    requires i < |s|
    ensures s[..i + 1][..i] == s[..i] && s[..i + 1][i] == s[i]
  {
  }

  /** A table whose every entry is the touched entry of s is the marked
      table. */
  lemma UpdatedOf(s: seq<Job>, k: Key, a: Action, t: seq<Job>)
    requires |t| == |s|
    requires forall j :: 0 <= j < |s| ==> t[j] == Touch(k, a, s[j])
    ensures t == Updated(s, k, a)
  {
  }

  class Shell {
    /** `processes[MAX_PROCESS]` */
    const processes: array<Job>
    var jobIndex: int
    var jobCounter: int
    var maxJobs: int
    var foregroundPid: int
    var foreground: bool
    var builtin: bool
    var original: string
    var effects: seq<Effect>
    var output: seq<string>

    ghost predicate Valid()
      reads this
    {
      processes.Length == MaxProcess
    }

    /** The globals as a value of Jobs.State. */
    ghost function Snapshot(): State
      reads this, processes
    {
      State(processes[..], jobIndex, jobCounter, maxJobs, foregroundPid,
            foreground, builtin, original, effects, output)
    }

    /** The globals as the program starts: zeroed, `job_counter` at 1. */
    constructor ()
      ensures Valid() && fresh(processes)
      ensures Snapshot() == Initial()
    {
      processes := new Job[MaxProcess](_ => Blank);
      jobIndex, jobCounter, maxJobs := 0, 1, 0;
      foregroundPid, foreground, builtin := 0, false, false;
      original, effects, output := "", [], [];
      new;
      assert processes[..] == seq(MaxProcess, _ => Blank);
    }

    /** `sigint_handler` */
    method Interrupt()
      requires Valid()
      modifies this, processes
      ensures Snapshot() == Jobs.Interrupt(old(Snapshot()))
    {
      ghost var st := Snapshot();
      foreground := false;
      if foregroundPid > 0 {
        var deleteIndex := SignalEach(foregroundPid);
        if deleteIndex != -1 {
          ghost var signalled := processes[..];
          ShiftLeft(processes, deleteIndex, MaxProcess - 1);
          assert processes[..] == Removed(signalled, deleteIndex);
        }
      }
    }

    /** The scan of `sigint_handler`: one SIGINT and one unguarded
        decrement of `max_jobs` per entry of `pid`; the index of the last
        of them is returned. */
    method SignalEach(pid: int) returns (deleteIndex: int)
      requires Valid()
      modifies this`maxJobs, this`effects
      ensures deleteIndex == LastHit(processes[..], PidIs(pid))
      ensures maxJobs == old(maxJobs) - Count(processes[..], PidIs(pid))
      ensures effects == old(effects) + Signals(processes[..], PidIs(pid), SigInt)
    {
      ghost var s := processes[..];
      ghost var c := IntCarry(-1, maxJobs, effects);
      deleteIndex := -1;
      var i := 0;
      while i < MaxProcess
        invariant 0 <= i <= MaxProcess
        invariant IntCarry(deleteIndex, maxJobs, effects) == IntScan(s[..i], pid, c)
      {
        PrefixStep(s, i);
        if processes[i].pid == pid {
          maxJobs := maxJobs - 1;
          deleteIndex := i;
          effects := effects + [Signal(pid, SigInt)];
        }
        i := i + 1;
      }
      assert s[..MaxProcess] == s;
      IntScanIs(s, pid, c);
    }

    /** `sigtstp_handler` */
    method Stop()
      requires Valid()
      requires foregroundPid > 0 && !builtin ==> 0 <= jobIndex < MaxProcess
      modifies this, processes
      ensures Snapshot() == Jobs.Stop(old(Snapshot()))
    {
      foreground := false;
      if foregroundPid > 0 && !builtin {
        maxJobs := maxJobs + 1;
        var job := Job(jobCounter, foregroundPid, true, true, false, true, original);
        jobCounter := jobCounter + 1;
        processes[jobIndex] := job;
        jobIndex := jobIndex + 1;
      }
      if foregroundPid > 0 {
        SuspendEach(foregroundPid);
      }
    }

    /** The scan of `sigtstp_handler`: every entry of `pid` is marked
        stopped and shown, with one SIGTSTP each. */
    method SuspendEach(pid: int)
      requires Valid()
      modifies processes, this`effects
      ensures processes[..] == Updated(old(processes[..]), PidIs(pid), Suspended)
      ensures effects == old(effects) + Signals(old(processes[..]), PidIs(pid), SigTstp)
    {
      ghost var s := processes[..];
      var i := 0;
      while i < MaxProcess
        invariant 0 <= i <= MaxProcess
        invariant forall j :: 0 <= j < i ==> processes[j] == Touch(PidIs(pid), Suspended, s[j])
        invariant forall j :: i <= j < MaxProcess ==> processes[j] == s[j]
        invariant effects == old(effects) + Signals(s[..i], PidIs(pid), SigTstp)
      {
        PrefixStep(s, i);
        var job := processes[i];
        if job.pid == pid {
          processes[i] := job.(running := false, terminated := false, show := true);
          effects := effects + [Signal(pid, SigTstp)];
        }
        i := i + 1;
      }
      UpdatedOf(s, PidIs(pid), Suspended, processes[..]);
      assert s[..MaxProcess] == s;
    }

    /** The removal code of the reap branches and of `kill`: mark every
        entry of `pid`, then shift out the entry at the delete index. */
    method RemovePid(pid: int, di: int) returns (d: int)
      requires Valid() && -1 <= di < MaxProcess
      modifies this, processes
      ensures (Snapshot(), d) == Jobs.Remove(old(Snapshot()), pid, di)
    {
      d := MarkGone(pid, di);
      if d != -1 {
        ghost var marked := processes[..];
        ShiftLeft(processes, d, MaxProcess - 1);
        assert processes[..] == Removed(marked, d);
      }
    }

    /** The marking loop of the removal code: every entry of `pid` is
        marked terminated and hidden, with a guarded decrement of
        `max_jobs` each; the delete index moves to the last of them. */
    method MarkGone(pid: int, di: int) returns (d: int)
      requires Valid() && -1 <= di < MaxProcess
      modifies processes, this`maxJobs
      ensures d == (var k := LastHit(old(processes[..]), PidIs(pid)); if k == -1 then di else k)
      ensures processes[..] == Updated(old(processes[..]), PidIs(pid), Gone)
      ensures maxJobs == GuardedDecrement(old(maxJobs), Count(old(processes[..]), PidIs(pid)))
    {
      ghost var s := processes[..];
      ghost var c := GoneCarry(di, maxJobs);
      d := di;
      var i := 0;
      while i < MaxProcess
        invariant 0 <= i <= MaxProcess
        invariant forall j :: 0 <= j < i ==> processes[j] == Touch(PidIs(pid), Gone, s[j])
        invariant forall j :: i <= j < MaxProcess ==> processes[j] == s[j]
        invariant GoneCarry(d, maxJobs) == GoneScan(s[..i], pid, c)
      {
        PrefixStep(s, i);
        d := MarkAt(i, pid, d);
        i := i + 1;
      }
      UpdatedOf(s, PidIs(pid), Gone, processes[..]);
      assert s[..MaxProcess] == s;
      GoneScanIs(s, pid, c);
    }

    /** One pass of the marking loop, over entry i; `d0` is the delete
        index so far. */
    method MarkAt(i: nat, pid: int, d0: int) returns (d: int)
      requires Valid() && i < MaxProcess
      modifies processes, this`maxJobs
      ensures processes[..] == old(processes[..])[i := Touch(PidIs(pid), Gone, old(processes[i]))]
      ensures GoneCarry(d, maxJobs) == GoneEntry(pid, i, old(processes[i]), GoneCarry(d0, old(maxJobs)))
    {
      d := d0;
      var job := processes[i];
      if job.pid == pid {
        d := i;
        job := job.(terminated := true);
        if maxJobs > 0 {
          maxJobs := maxJobs - 1;
        }
        processes[i] := job.(show := false);
      }
    }

    /** `sigchld_handler`: `events` is what the non-blocking `waitpid`
        loop reports, in order. */
    method ChildStatus(events: seq<Event>)
      requires Valid()
      modifies this, processes
      ensures Snapshot() == Jobs.ChildStatus(old(Snapshot()), events)
    {
      var deleteIndex := -1;
      var e := 0;
      while e < |events|
        invariant 0 <= e <= |events|
        invariant -1 <= deleteIndex < MaxProcess
        invariant Reap(Snapshot(), events[e..], deleteIndex)
                  == Jobs.ChildStatus(old(Snapshot()), events)
      {
        ghost var before := Snapshot();
        ghost var rest := events[e..];
        assert rest[0] == events[e] && rest[1..] == events[e + 1..];
        var ev := events[e];
        match ev.status {
          case Exited(code) =>
            if code != 0 {
              foreground := false;
            } else {
              foreground := false;
              deleteIndex := RemovePid(ev.pid, deleteIndex);
            }
          case Killed =>
            foreground := false;
            deleteIndex := RemovePid(ev.pid, deleteIndex);
          case Halted =>
            foreground := false;
          case Continued =>
            foreground := true;
        }
        e := e + 1;
      }
    }

    /** `jobs` */
    method ListJobs()
      requires Valid()
      modifies this
      ensures Snapshot() == Jobs.ListJobs(old(Snapshot()))
    {
      builtin := true;
      ghost var printed := output;
      var i := 0;
      while i < MaxProcess
        modifies this`output
        invariant 0 <= i <= MaxProcess
        invariant output == printed + Listing(processes[..i])
      {
        PrefixStep(processes[..], i);
        assert processes[..i + 1] == processes[..][..i + 1];
        if !processes[i].terminated && processes[i].show {
          output := output + [FormatJob(processes[i])];
        }
        i := i + 1;
      }
      assert processes[..MaxProcess] == processes[..];
    }

    /** `quit` (leaving the loop is the caller's part). */
    method Quit()
      requires Valid()
      modifies this
      ensures Snapshot() == Jobs.Quit(old(Snapshot()))
    {
      builtin := true;
      ghost var sent := effects;
      var i := 0;
      while i < MaxProcess
        modifies this`effects
        invariant 0 <= i <= MaxProcess
        invariant effects == sent + Signals(processes[..i], Every, SigKill)
      {
        PrefixStep(processes[..], i);
        assert processes[..i + 1] == processes[..][..i + 1];
        effects := effects + [Signal(processes[i].pid, SigKill)];
        i := i + 1;
      }
      assert processes[..MaxProcess] == processes[..];
    }

    /** The `%N` lookup of `kill`: the pid of the last entry with id N. */
    method FindJobPid(id: int) returns (pid: int)
      requires Valid()
      ensures pid == JobPid(processes[..], id)
    {
      pid := 0;
      var i := 0;
      ghost var last := -1;
      while i < MaxProcess
        invariant 0 <= i <= MaxProcess
        invariant last == LastHit(processes[..i], IdIs(id))
        invariant pid == if last == -1 then 0 else processes[last].pid
      {
        PrefixStep(processes[..], i);
        assert processes[..][..i] == processes[..i];
        assert processes[..][..i + 1] == processes[..i + 1];
        if processes[i].id == id {
          pid := processes[i].pid;
          last := i;
        }
        i := i + 1;
      }
      assert processes[..MaxProcess] == processes[..];
    }

    /** The bare-number check shared by `kill`, `fg` and `bg`: it stops at
        the first entry with id n (reporting that), and takes n as the
        target when an entry before that has pid n. */
    method ResolveBare(n: int) returns (target: int, noted: bool)
      requires Valid()
      ensures target == BareTarget(processes[..], n)
      ensures noted == (FirstHit(processes[..], IdIs(n)) < MaxProcess)
    {
      target := 0;
      noted := false;
      var i := 0;
      while i < MaxProcess
        invariant 0 <= i <= MaxProcess
        invariant forall j :: 0 <= j < i ==> processes[j].id != n
        invariant target == if Count(processes[..i], PidIs(n)) > 0 then n else 0
      {
        PrefixStep(processes[..], i);
        assert processes[..][..i] == processes[..i];
        assert processes[..][..i + 1] == processes[..i + 1];
        if processes[i].id == n {
          noted := true;
          break;
        }
        if processes[i].pid == n {
          target := n;
        }
        i := i + 1;
      }
      assert processes[..MaxProcess] == processes[..];
      FirstHitAt(processes[..], IdIs(n), i);
    }

    /** The bare-number form of the argument: prints the check's notes,
        and the error message when no target is found (target 0). */
    method CheckBare(arg: string) returns (target: int)
      requires Valid()
      modifies this`output
      ensures (Snapshot(), target) == BareCheck(old(Snapshot()), arg)
    {
      ghost var printed := output;
      var noted;
      target, noted := ResolveBare(Atoi(arg));
      if noted {
        output := output + [PercentMessage];
      }
      assert output == printed + BareNotes(processes[..], Atoi(arg));
      if target == 0 {
        output := output + [UnknownMessage];
      }
      assert output == printed + BareNotes(processes[..], Atoi(arg))
                              + if target == 0 then [UnknownMessage] else [];
    }

    /** `kill` */
    method Kill(arg: string)
      requires Valid() && |arg| > 0
      modifies this, processes
      ensures Snapshot() == KillCommand(old(Snapshot()), arg)
    {
      builtin := true;
      var target := 0;
      if arg[0] == '%' {
        target := FindJobPid(JobDigit(arg));
      } else {
        target := CheckBare(arg);
        if target == 0 {
          return;
        }
      }
      effects := effects + [Signal(target, SigKill), Wait(target)];
      var _ := RemovePid(target, -1);
    }

    /** The `fg` scan once the number to match is known: every entry whose
        pid or id is n is brought to the foreground and resumed, with a
        SIGCONT for each that was stopped; `foreground_pid` becomes the pid
        of the last of them. */
    method Front(n: int)
      requires Valid()
      modifies processes, this`foregroundPid, this`foreground, this`effects
      ensures processes[..] == Updated(old(processes[..]), PidOrId(n), Fronted)
      ensures foregroundPid == (var k := LastHit(old(processes[..]), PidOrId(n));
                                if k == -1 then old(foregroundPid) else old(processes[k].pid))
      ensures foreground == (old(foreground) || Count(old(processes[..]), Waking(n)) > 0)
      ensures effects == old(effects) + Signals(old(processes[..]), Paused(n), SigCont)
    {
      ghost var s := processes[..];
      ghost var c := MoveCarry(foregroundPid, foreground, effects);
      var i := 0;
      while i < MaxProcess
        invariant 0 <= i <= MaxProcess
        invariant forall j :: 0 <= j < i ==> processes[j] == Touch(PidOrId(n), Fronted, s[j])
        invariant forall j :: i <= j < MaxProcess ==> processes[j] == s[j]
        invariant MoveCarry(foregroundPid, foreground, effects) == FgScan(s[..i], n, c)
      {
        PrefixStep(s, i);
        FrontAt(i, n);
        i := i + 1;
      }
      UpdatedOf(s, PidOrId(n), Fronted, processes[..]);
      assert s[..MaxProcess] == s;
      FgScanIs(s, n, c);
    }

    /** One pass of the `fg` loop, over entry i. */
    method FrontAt(i: nat, n: int)
      requires Valid() && i < MaxProcess
      modifies processes, this`foregroundPid, this`foreground, this`effects
      ensures processes[..] == old(processes[..])[i := Touch(PidOrId(n), Fronted, old(processes[i]))]
      ensures MoveCarry(foregroundPid, foreground, effects)
           == FgEntry(n, old(processes[i]), MoveCarry(old(foregroundPid), old(foreground), old(effects)))
    {
      var job := processes[i];
      if job.pid == n || job.id == n {
        foregroundPid := job.pid;
        if !job.foreground {
          job := job.(foreground := true);
          foregroundPid := job.pid;
          foreground := true;
        }
        if !job.running {
          job := job.(running := true);
          foreground := true;
          effects := effects + [Signal(job.pid, SigCont)];
        }
        processes[i] := job;
      }
    }

    /** The `bg` scan once the number to match is known: every entry whose
        pid or id is n is moved to its own process group; those in the
        foreground and stopped are resumed in the background, and
        `foreground_pid` becomes the pid of the last of them. */
    method Back(n: int)
      requires Valid()
      modifies processes, this`foregroundPid, this`foreground, this`effects
      ensures processes[..] == Updated(old(processes[..]), Resumable(n), Resumed)
      ensures var k := LastHit(old(processes[..]), Resumable(n));
              foregroundPid == (if k == -1 then old(foregroundPid) else old(processes[k].pid))
              && foreground == (if k == -1 then old(foreground) else false)
      ensures effects == old(effects) + BgEffects(old(processes[..]), n)
    {
      ghost var s := processes[..];
      ghost var c := MoveCarry(foregroundPid, foreground, effects);
      var i := 0;
      while i < MaxProcess
        invariant 0 <= i <= MaxProcess
        invariant forall j :: 0 <= j < i ==> processes[j] == Touch(Resumable(n), Resumed, s[j])
        invariant forall j :: i <= j < MaxProcess ==> processes[j] == s[j]
        invariant MoveCarry(foregroundPid, foreground, effects) == BgScan(s[..i], n, c)
      {
        PrefixStep(s, i);
        BackAt(i, n);
        i := i + 1;
      }
      UpdatedOf(s, Resumable(n), Resumed, processes[..]);
      assert s[..MaxProcess] == s;
      BgScanIs(s, n, c);
    }

    /** One pass of the `bg` loop, over entry i. */
    method BackAt(i: nat, n: int)
      requires Valid() && i < MaxProcess
      modifies processes, this`foregroundPid, this`foreground, this`effects
      ensures processes[..] == old(processes[..])[i := Touch(Resumable(n), Resumed, old(processes[i]))]
      ensures MoveCarry(foregroundPid, foreground, effects)
           == BgEntry(n, old(processes[i]), MoveCarry(old(foregroundPid), old(foreground), old(effects)))
    {
      var job := processes[i];
      if job.pid == n || job.id == n {
        effects := effects + [SetGroup(job.pid)];
        if job.foreground && !job.running {
          processes[i] := job.(foreground := false, running := true);
          foregroundPid := job.pid;
          foreground := false;
          effects := effects + [Signal(job.pid, SigCont)];
        }
      }
    }

    /** `fg` */
    method Fg(arg: string)
      requires Valid() && |arg| > 0
      modifies this, processes
      ensures Snapshot() == FgCommand(old(Snapshot()), arg)
    {
      builtin := true;
      var target := 0;
      if arg[0] == '%' {
        target := JobDigit(arg);
      } else {
        target := CheckBare(arg);
        if target == 0 {
          return;
        }
      }
      Front(target);
    }

    /** `bg` */
    method Bg(arg: string)
      requires Valid() && |arg| > 0
      modifies this, processes
      ensures Snapshot() == BgCommand(old(Snapshot()), arg)
    {
      builtin := true;
      var target := 0;
      if arg[0] == '%' {
        target := JobDigit(arg);
      } else {
        target := CheckBare(arg);
        if target == 0 {
          return;
        }
      }
      Back(target);
    }

    /** Background launch; `pid` is what `fork` returned. */
    method LaunchBackground(pid: int, args: seq<string>)
      requires Valid() && 0 <= jobIndex < MaxProcess
      modifies this, processes
      ensures Snapshot() == Jobs.LaunchBackground(old(Snapshot()), pid, args)
    {
      effects := effects + [SetGroup(pid), Exec(pid, args, Inherit, false)];
      builtin := false;
      foreground := false;
      maxJobs := maxJobs + 1;
      var job := Job(jobCounter, pid, false, true, false, true, original);
      jobCounter := jobCounter + 1;
      processes[jobIndex] := job;
      jobIndex := jobIndex + 1;
    }

    /** Foreground launch; the child's argument vector is computed from the
        redirection scan. */
    method LaunchForeground(pid: int, args: seq<string>)
      requires Valid()
      modifies this
      ensures Snapshot() == Jobs.LaunchForeground(old(Snapshot()), pid, args)
    {
      var r := ScanRedirections(args);
      effects := effects + [ChildExec(pid, args, r)];
      foreground := true;
      builtin := false;
      foregroundPid := pid;
    }

    /** One pass of the main loop on the line `fgets` returned, entered
        only while no foreground job is active. */
    method Execute(line: string, pid: int) returns (quit: bool)
      requires Valid() && !foreground && Admissible(Snapshot(), line)
      modifies this, processes
      ensures (Snapshot(), quit) == Step(old(Snapshot()), line, pid)
    {
      original := StripNewline(line);
      var args := Tokenize(original);
      quit := false;
      if args == [] {
      } else if args[0] == "cd" || args[0] == "pwd" {
        builtin := true;
      } else if args[0] == "jobs" {
        ListJobs();
      } else if args[0] == "kill" {
        Kill(args[1]);
      } else if args[0] == "fg" {
        Fg(args[1]);
      } else if args[0] == "bg" {
        Bg(args[1]);
      } else if args[0] == "quit" {
        Quit();
        quit := true;
      } else if InBackground(args) && maxJobs < MaxRunning {
        LaunchBackground(pid, args);
      } else if maxJobs < MaxRunning {
        LaunchForeground(pid, args);
      } else {
        output := output + [CeilingMessage];
      }
    }
  }
}
