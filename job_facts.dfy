/** What the job-table steps of module Jobs guarantee, and what they do
    not: the ceiling on launches, the listing printed by `jobs`, the shape
    of a shift-left delete, the guarded counter of the removal code, the
    flag changes of the stop handler, `fg` and `bg`, the bare-number check,
    and the stale delete index of the reap loop. */
module JobFacts {
  import opened Common
  import opened Parsing
  import opened Jobs

  // ---------------------------------------------------------------------
  // The listing printed by `jobs`
  // ---------------------------------------------------------------------

  lemma {:induction false} ListingAppend(a: seq<Job>, b: seq<Job>)
    ensures Listing(a + b) == Listing(a) + Listing(b)
  {
    if b == [] {
      assert a + b == a;
    } else {
      var c := a + b;
      assert c[..|c| - 1] == a + b[..|b| - 1];
      assert c[|c| - 1] == b[|b| - 1];
      ListingAppend(a, b[..|b| - 1]);
    }
  }

  /** The entries `jobs` prints, in table order: a filter written from the
      front, independently of Listing. */
  function Shown(s: seq<Job>): (r: seq<Job>)
    ensures forall j :: j in r ==> !j.terminated && j.show
  {
    if s == [] then []
    else (if !s[0].terminated && s[0].show then [s[0]] else []) + Shown(s[1..])
  }

  function FormatAll(js: seq<Job>): (r: seq<string>)
    ensures |r| == |js|
  {
    if js == [] then [] else [FormatJob(js[0])] + FormatAll(js[1..])
  }

  lemma {:induction false} FormatAllAppend(a: seq<Job>, b: seq<Job>)
    ensures FormatAll(a + b) == FormatAll(a) + FormatAll(b)
  {
    if a == [] {
      assert a + b == b;
    } else {
      assert (a + b)[1..] == a[1..] + b;
      FormatAllAppend(a[1..], b);
    }
  }

  /** The listing of one entry, and the formatted filter of it. */
  lemma ListingOfOne(j: Job)
    ensures var line := if Hit(Listed, j) then [FormatJob(j)] else [];
            Listing([j]) == line
            && FormatAll(if !j.terminated && j.show then [j] else []) == line
  {
    assert [j][..0] == [];
    assert [j][1..] == [];
  }

  /** `jobs` prints one formatted line for exactly the entries that are
      not terminated and shown, in array order. */
  lemma {:induction false} ListingIsShownEntries(s: seq<Job>)
    ensures Listing(s) == FormatAll(Shown(s))
  {
    if s != [] {
      var rest := s[1..];
      var first := if !s[0].terminated && s[0].show then [s[0]] else [];
      assert Listing(s) == Listing([s[0]]) + Listing(rest) by {
        assert s == [s[0]] + rest;
        ListingAppend([s[0]], rest);
      }
      assert FormatAll(Shown(s)) == FormatAll(first) + FormatAll(Shown(rest)) by {
        FormatAllAppend(first, Shown(rest));
      }
      ListingOfOne(s[0]);
      ListingIsShownEntries(rest);
    }
  }

  /** Slots no job has been written to print nothing. */
  lemma {:induction false} ListingOfFree(s: seq<Job>)
    requires forall i :: 0 <= i < |s| ==> Free(s[i])
    ensures Listing(s) == []
  {
    if s != [] {
      ListingOfFree(s[..|s| - 1]);
    }
  }

  /** Writing a listed job into the first of a run of free slots that
      ends the table adds its line at the end of the listing. */
  lemma ListingOfFirstFree(s: seq<Job>, k: nat, j: Job)
    requires k < |s| && Hit(Listed, j)
    requires forall i :: k <= i < |s| ==> Free(s[i])
    ensures Listing(s[k := j]) == Listing(s) + [FormatJob(j)]
  {
    var t := s[k := j];
    assert t == s[..k] + [j] + s[k + 1..];
    assert s == s[..k] + s[k..];
    ListingOfFree(s[k..]);
    ListingOfFree(s[k + 1..]);
    ListingAppend(s[..k], s[k..]);
    ListingAppend(s[..k] + [j], s[k + 1..]);
    ListingAppend(s[..k], [j]);
    assert [j][..0] == [];
  }

  /** A background launch adds exactly the new job's line to what `jobs`
      prints: the slot at `job_index` was free, and so is every later one. */
  lemma BackgroundLaunchListed(st: State, pid: int, args: seq<string>)
    requires Inv(st) && st.jobIndex < MaxProcess
    ensures Listing(LaunchBackground(st, pid, args).slots)
         == Listing(st.slots) + [FormatJob(Job(st.jobCounter, pid, false, true, false, true, st.original))]
  {
    ListingOfFirstFree(st.slots, st.jobIndex, Job(st.jobCounter, pid, false, true, false, true, st.original));
  }

  // ---------------------------------------------------------------------
  // Launches and the ceiling
  // ---------------------------------------------------------------------

  predicate NoExec(es: seq<Effect>) {
    forall i :: 0 <= i < |es| ==> !es[i].Exec?
  }

  lemma {:induction false} SignalsNoExec(s: seq<Job>, k: Key, sig: Sig)
    ensures NoExec(Signals(s, k, sig))
  {
    if s != [] {
      SignalsNoExec(s[..|s| - 1], k, sig);
    }
  }

  lemma {:induction false} BgEffectsNoExec(s: seq<Job>, n: int)
    ensures NoExec(BgEffects(s, n))
  {
    if s != [] {
      BgEffectsNoExec(s[..|s| - 1], n);
    }
  }

  /** The builtins only append signals, waits and process-group moves. */
  lemma CommandsNoExec(st: State, arg: string)
    requires |st.slots| == MaxProcess && |arg| > 0
    ensures exists es :: NoExec(es) && KillCommand(st, arg).effects == st.effects + es
    ensures exists es :: NoExec(es) && FgCommand(st, arg).effects == st.effects + es
    ensures exists es :: NoExec(es) && BgCommand(st, arg).effects == st.effects + es
  {
    var empty: seq<Effect> := [];
    assert st.effects == st.effects + empty;
    forall n: int
      ensures FgTarget(st, n).effects == st.effects + Signals(st.slots, Paused(n), SigCont)
      ensures BgTarget(st, n).effects == st.effects + BgEffects(st.slots, n)
      ensures NoExec(Signals(st.slots, Paused(n), SigCont)) && NoExec(BgEffects(st.slots, n))
    {
      SignalsNoExec(st.slots, Paused(n), SigCont);
      BgEffectsNoExec(st.slots, n);
    }
    forall t: int
      ensures KillTarget(st, t).effects == st.effects + [Signal(t, SigKill), Wait(t)]
    {
    }
  }

  /** A builtin followed by `&` is handled as the builtin, whatever
      `job_index` is: only `kill`, `fg` and `bg` ask for anything, their
      argument. */
  lemma BuiltinLineAdmissible(st: State, line: string)
    requires var args := Tokenize(StripNewline(line));
             |args| > 0 && IsBuiltin(args[0])
             && (args[0] == "kill" || args[0] == "fg" || args[0] == "bg" ==> |args| > 1)
    ensures Admissible(st, line)
  {
  }

  /** A program is forked and exec'd only while `max_jobs` is below the
      ceiling: a step that logs an exec started below it. */
  lemma ExecOnlyBelowCeiling(st: State, line: string, pid: int)
    requires |st.slots| == MaxProcess && Admissible(st, line)
    ensures var st' := Step(st, line, pid).0;
            (exists es :: NoExec(es) && st'.effects == st.effects + es)
            || st.maxJobs < MaxRunning
  {
    var st0 := st.(original := StripNewline(line));
    var args := Tokenize(st0.original);
    var empty: seq<Effect> := [];
    assert st.effects == st.effects + empty;
    if |args| > 0 && (args[0] == "kill" || args[0] == "fg" || args[0] == "bg") {
      CommandsNoExec(st0, args[1]);
    } else if |args| > 0 && args[0] == "quit" {
      SignalsNoExec(st0.slots, Every, SigKill);
    }
  }

  /** At or above the ceiling an external command only prints the ceiling
      message: the table, the counters and the effect log are untouched. */
  lemma CeilingRefusesLaunch(st: State, line: string, pid: int)
    requires |st.slots| == MaxProcess && Admissible(st, line)
    requires var args := Tokenize(StripNewline(line)); |args| > 0 && !IsBuiltin(args[0])
    requires st.maxJobs >= MaxRunning
    ensures Step(st, line, pid)
         == (st.(original := StripNewline(line), output := st.output + [CeilingMessage]), false)
  {
  }

  /** Below the ceiling a background command writes exactly one job at
      `job_index`: id `job_counter`, running, in the background, shown;
      `job_counter`, `job_index` and `max_jobs` each go up by one. The child
      puts itself into its own process group and execs the arguments, `&`
      included. */
  lemma BackgroundLaunchWritesOneJob(st: State, line: string, pid: int)
    requires |st.slots| == MaxProcess && Admissible(st, line)
    requires var args := Tokenize(StripNewline(line));
             |args| > 0 && !IsBuiltin(args[0]) && InBackground(args)
    requires st.maxJobs < MaxRunning
    ensures var args := Tokenize(StripNewline(line));
            var (st', quit) := Step(st, line, pid);
            !quit
            && st'.slots == st.slots[st.jobIndex := Job(st.jobCounter, pid, false, true, false, true, StripNewline(line))]
            && st'.jobIndex == st.jobIndex + 1 && st'.jobCounter == st.jobCounter + 1
            && st'.maxJobs == st.maxJobs + 1
            && st'.effects == st.effects + [SetGroup(pid), Exec(pid, args, Inherit, false)]
  {
  }

  /** Below the ceiling a foreground command creates no entry and leaves
      `max_jobs` alone; it becomes the foreground process, and its child
      execs the argument vector and redirection the scan computes. */
  lemma ForegroundLaunchAddsNoJob(st: State, line: string, pid: int)
    requires |st.slots| == MaxProcess && Admissible(st, line)
    requires var args := Tokenize(StripNewline(line));
             |args| > 0 && !IsBuiltin(args[0]) && !InBackground(args)
    requires st.maxJobs < MaxRunning
    ensures var (st', quit) := Step(st, line, pid);
            !quit && st'.slots == st.slots && st'.jobIndex == st.jobIndex
            && st'.maxJobs == st.maxJobs && st'.fgPid == pid && st'.foreground
            && |st'.effects| == |st.effects| + 1 && st'.effects[|st.effects|].Exec?
    ensures var args := Tokenize(StripNewline(line));
            Step(st, line, pid).0.effects == st.effects + [ChildExec(pid, args, Redirections(args))]
  {
  }

  // ---------------------------------------------------------------------
  // The shift-left delete
  // ---------------------------------------------------------------------

  /** Deleting entry k keeps the entries before it, moves the later ones
      one slot down in their order, and leaves the last one twice. */
  lemma RemovedKeepsOrder(s: seq<Job>, k: nat)
    requires k < |s|
    ensures Removed(s, k) == s[..k] + s[k + 1..] + [s[|s| - 1]]
  {
    var r := Removed(s, k);
    var t := s[..k] + s[k + 1..] + [s[|s| - 1]];
    forall i | 0 <= i < |s|
      ensures r[i] == t[i]
    {
      ShiftedLeftAt(s, k, |s| - 1, i);
      if i < k {
        assert t[i] == s[..k][i];
      } else if i < |s| - 1 {
        assert t[i] == s[k + 1..][i - k];
      }
    }
  }

  // ---------------------------------------------------------------------
  // The guarded counter of the removal code
  // ---------------------------------------------------------------------

  lemma RemoveKeepsMaxJobs(st: State, pid: int, di: int)
    requires |st.slots| == MaxProcess && -1 <= di < MaxProcess && st.maxJobs >= 0
    ensures 0 <= Remove(st, pid, di).0.maxJobs <= st.maxJobs
  {
  }

  /** The reap loop never makes `max_jobs` negative and never raises it. */
  lemma {:induction false} ReapKeepsMaxJobs(st: State, events: seq<Event>, di: int)
    requires |st.slots| == MaxProcess && -1 <= di < MaxProcess && st.maxJobs >= 0
    ensures 0 <= Reap(st, events, di).maxJobs <= st.maxJobs
    decreases |events|
  {
    if events != [] {
      var (st1, d1) := ReapOne(st, events[0], di);
      RemoveKeepsMaxJobs(st.(foreground := false), events[0].pid, di);
      ReapKeepsMaxJobs(st1, events[1..], d1);
    }
  }

  /** `kill` never makes `max_jobs` negative and never raises it. */
  lemma KillKeepsMaxJobs(st: State, arg: string)
    requires |st.slots| == MaxProcess && |arg| > 0 && st.maxJobs >= 0
    ensures 0 <= KillCommand(st, arg).maxJobs <= st.maxJobs
  {
  }

  /** After a removal no entry of the pid is shown by `jobs`. */
  lemma RemoveHidesPid(st: State, pid: int, di: int)
    requires |st.slots| == MaxProcess && -1 <= di < MaxProcess
    ensures var s' := Remove(st, pid, di).0.slots;
            forall i :: 0 <= i < MaxProcess && s'[i].pid == pid ==> !s'[i].show
  {
    var key := PidIs(pid);
    var k := LastHit(st.slots, key);
    var d := if k == -1 then di else k;
    var marked := Updated(st.slots, key, Gone);
    if d != -1 {
      forall i | 0 <= i < MaxProcess
        ensures Removed(marked, d)[i] == marked[i] || Removed(marked, d)[i] == marked[i + 1]
      {
        ShiftedLeftAt(marked, d, MaxProcess - 1, i);
      }
    }
  }

  /** The stale delete index: a reaped pid that has no entry still shifts
      the table at the index left by an earlier pass, dropping whatever
      entry sits there now. */
  lemma StaleIndexDropsEntry(st: State, pid: int, d: int)
    requires |st.slots| == MaxProcess && 0 <= d < MaxProcess
    requires forall i :: 0 <= i < MaxProcess ==> st.slots[i].pid != pid
    ensures var (st', d') := ReapOne(st, Event(pid, Killed), d);
            d' == d && st'.slots == st.slots[..d] + st.slots[d + 1..] + [st.slots[MaxProcess - 1]]
            && st'.maxJobs == st.maxJobs
  {
    var key := PidIs(pid);
    LastHitIsLast(st.slots, key);
    CountZero(st.slots, key);
    assert Updated(st.slots, key, Gone) == st.slots;
    RemovedKeepsOrder(st.slots, d);
  }

  // ---------------------------------------------------------------------
  // The stop handler, fg and bg
  // ---------------------------------------------------------------------

  /** After the stop handler every entry of the foreground pid is stopped,
      not terminated and shown (an entry the table already held keeps its
      id, pid, foreground flag and command), every other entry is as
      before, and a new
      entry with the old `job_counter` as id is appended first exactly when
      no builtin ran last. */
  lemma StopSuspends(st: State)
    requires |st.slots| == MaxProcess && st.fgPid > 0
    requires !st.builtin ==> 0 <= st.jobIndex < MaxProcess
    ensures var s' := Stop(st).slots;
            forall i :: 0 <= i < MaxProcess && s'[i].pid == st.fgPid ==>
              !s'[i].running && !s'[i].terminated && s'[i].show
    ensures var s' := Stop(st).slots;
            forall i :: 0 <= i < MaxProcess && st.slots[i].pid != st.fgPid ==>
              (st.builtin || i != st.jobIndex ==> s'[i] == st.slots[i])
    ensures var s' := Stop(st).slots;
            forall i :: 0 <= i < MaxProcess && st.slots[i].pid == st.fgPid && (st.builtin || i != st.jobIndex)
              ==> s'[i] == st.slots[i].(running := false, terminated := false, show := true)
    ensures !st.builtin ==>
              Stop(st).slots[st.jobIndex]
                == Job(st.jobCounter, st.fgPid, true, false, false, true, st.original)
              && Stop(st).jobCounter == st.jobCounter + 1
              && Stop(st).jobIndex == st.jobIndex + 1
              && Stop(st).maxJobs == st.maxJobs + 1
    ensures st.builtin ==>
              Stop(st).jobCounter == st.jobCounter && Stop(st).jobIndex == st.jobIndex
              && Stop(st).maxJobs == st.maxJobs
  {
  }

  /** `fg n` marks every entry whose pid or id is n foreground and running
      and leaves the others; `foreground_pid` becomes the pid of the last
      such entry, and stays as it was when there is none. */
  lemma FgMarksMatches(st: State, n: int)
    ensures |FgTarget(st, n).slots| == |st.slots|
    ensures forall i :: 0 <= i < |st.slots| ==>
              FgTarget(st, n).slots[i]
                == if st.slots[i].pid == n || st.slots[i].id == n
                   then st.slots[i].(foreground := true, running := true)
                   else st.slots[i]
    ensures forall i :: 0 <= i < |st.slots| && (st.slots[i].pid == n || st.slots[i].id == n)
              && (forall j :: i < j < |st.slots| ==> st.slots[j].pid != n && st.slots[j].id != n)
              ==> FgTarget(st, n).fgPid == st.slots[i].pid
    ensures (forall i :: 0 <= i < |st.slots| ==> st.slots[i].pid != n && st.slots[i].id != n)
              ==> FgTarget(st, n).fgPid == st.fgPid
  {
    LastHitIsLast(st.slots, PidOrId(n));
  }

  /** `bg n` changes an entry whose pid or id is n only when it is in the
      foreground and stopped, and then moves it to the background running. */
  lemma BgResumesStoppedForeground(st: State, n: int)
    ensures |BgTarget(st, n).slots| == |st.slots|
    ensures forall i :: 0 <= i < |st.slots| ==>
              BgTarget(st, n).slots[i]
                == if (st.slots[i].pid == n || st.slots[i].id == n)
                      && st.slots[i].foreground && !st.slots[i].running
                   then st.slots[i].(foreground := false, running := true)
                   else st.slots[i]
    ensures (forall i :: 0 <= i < |st.slots| ==> !Hit(Resumable(n), st.slots[i]))
            ==> BgTarget(st, n).fgPid == st.fgPid && BgTarget(st, n).foreground == st.foreground
  {
    LastHitIsLast(st.slots, Resumable(n));
    if forall i :: 0 <= i < |st.slots| ==> !Hit(Resumable(n), st.slots[i]) {
      assert LastHit(st.slots, Resumable(n)) == -1;
    }
  }

  // ---------------------------------------------------------------------
  // quit
  // ---------------------------------------------------------------------

  /** A scan selecting every entry sends the signal to each slot's pid, in
      table order. */
  lemma {:induction false} SignalsEvery(s: seq<Job>, sig: Sig)
    ensures |Signals(s, Every, sig)| == |s|
    ensures forall i :: 0 <= i < |s| ==> Signals(s, Every, sig)[i] == Signal(s[i].pid, sig)
  {
    if s != [] {
      SignalsEvery(s[..|s| - 1], sig);
    }
  }

  /** `quit` sends SIGKILL to the pid of every one of the 56 slots, in
      table order, free slots (pid 0) included, and changes nothing else
      but the `builtin` flag. */
  lemma QuitKillsEverySlot(st: State)
    ensures var st' := Quit(st);
            |st'.effects| == |st.effects| + |st.slots|
            && st'.effects[..|st.effects|] == st.effects
            && (forall i :: 0 <= i < |st.slots| ==>
                  st'.effects[|st.effects| + i] == Signal(st.slots[i].pid, SigKill))
            && st' == st.(builtin := true, effects := st'.effects)
  {
    SignalsEvery(st.slots, SigKill);
  }

  // ---------------------------------------------------------------------
  // The bare-number check of kill, fg and bg
  // ---------------------------------------------------------------------

  /** The bare number is taken as a target exactly when an entry before the
      first entry with that id has it as pid. */
  lemma BareTargetFound(s: seq<Job>, n: int)
    ensures BareTarget(s, n)
         == if exists j :: 0 <= j < FirstHit(s, IdIs(n)) && s[j].pid == n then n else 0
  {
    var f := FirstHit(s, IdIs(n));
    CountZero(s[..f], PidIs(n));
    if exists j :: 0 <= j < f && s[j].pid == n {
      var j :| 0 <= j < f && s[j].pid == n;
      assert s[..f][j] == s[j];
    }
  }

  /** When the check finds no target, `kill`, `fg` and `bg` print the
      check's notes and the error message and change nothing else. */
  lemma UnknownBareLeavesTable(st: State, arg: string)
    requires |st.slots| == MaxProcess && |arg| > 0 && arg[0] != '%'
    requires BareTarget(st.slots, Atoi(arg)) == 0
    ensures var after := st.(builtin := true,
                             output := st.output + BareNotes(st.slots, Atoi(arg)) + [UnknownMessage]);
            KillCommand(st, arg) == after && FgCommand(st, arg) == after
            && BgCommand(st, arg) == after
  {
  }
}
