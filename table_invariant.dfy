/** The job-table invariant Jobs.Inv holds initially and after every
    handler and every pass of the main loop: the slots from `job_index` on
    are still free, every id is below `job_counter`, and the ids grow along
    the table (strictly while `job_index` has not reached the end, so the
    id `kill %N`, `fg %N` and `bg %N` look for names one entry). */
module TableInvariant {
  import opened Common
  import opened Parsing
  import opened Jobs

  lemma InitialInv()
    ensures Inv(Initial())
  {
  }

  /** While `job_index` is below the end, no two entries share an id. */
  lemma IdsUnique(st: State)
    requires Inv(st) && st.jobIndex < MaxProcess
    ensures forall i, j :: 0 <= i < j < MaxProcess && st.slots[i].id != 0 ==>
              st.slots[i].id != st.slots[j].id
  {
  }

  // ---------------------------------------------------------------------
  // The three ways the table changes
  // ---------------------------------------------------------------------

  /** A marking scan keeps the invariant, unless it shows a free slot: only
      the stop handler's marks show an entry, and it never selects one. */
  lemma MarkKeepsInv(st: State, k: Key, a: Action)
    requires Inv(st)
    requires a == Suspended ==> forall i :: st.jobIndex <= i < MaxProcess ==> !Hit(k, st.slots[i])
    ensures Inv(st.(slots := Updated(st.slots, k, a)))
  {
    var t := Updated(st.slots, k, a);
    assert forall i :: 0 <= i < MaxProcess ==> t[i].id == st.slots[i].id;
  }

  /** The shift-left delete keeps the invariant: entries only move down in
      their order, and the one left twice at the end is free while
      `job_index` has not reached the end. */
  lemma RemovedKeepsInv(st: State, d: nat)
    requires Inv(st) && d < MaxProcess
    ensures Inv(st.(slots := Removed(st.slots, d)))
  {
    var s := st.slots;
    var t := Removed(s, d);
    // where each entry of t comes from
    var from := (i: int) => if d <= i < MaxProcess - 1 then i + 1 else i;
    forall i | 0 <= i < MaxProcess
      ensures t[i] == s[from(i)]
    {
      ShiftedLeftAt(s, d, MaxProcess - 1, i);
    }
    forall i, j | 0 <= i < j < MaxProcess && t[i].id != 0 && t[j].id != 0
      ensures if st.jobIndex < MaxProcess then t[i].id < t[j].id else t[i].id <= t[j].id
    {
      assert from(i) <= from(j);
      if from(i) == from(j) {
        assert from(j) == MaxProcess - 1;
      }
    }
  }

  /** Writing a new job with id `job_counter` at `job_index` keeps the
      invariant. */
  lemma AppendedKeepsInv(st: State, j: Job)
    requires Inv(st) && st.jobIndex < MaxProcess && j.id == st.jobCounter
    ensures Inv(Appended(st, j))
  {
    var t := Appended(st, j).slots;
    forall a, b | 0 <= a < b < MaxProcess && t[a].id != 0 && t[b].id != 0
      ensures if st.jobIndex + 1 < MaxProcess then t[a].id < t[b].id else t[a].id <= t[b].id
    {
      assert b <= st.jobIndex;
    }
  }

  // ---------------------------------------------------------------------
  // The handlers
  // ---------------------------------------------------------------------

  lemma InterruptKeepsInv(st: State)
    requires Inv(st)
    ensures Inv(Interrupt(st))
  {
    if st.fgPid > 0 {
      var k := LastHit(st.slots, PidIs(st.fgPid));
      if k != -1 {
        RemovedKeepsInv(st, k);
      }
    }
  }

  lemma StopKeepsInv(st: State)
    requires Inv(st)
    requires st.fgPid > 0 && !st.builtin ==> st.jobIndex < MaxProcess
    ensures Inv(Stop(st))
  {
    var st1 :=
      if st.fgPid > 0 && !st.builtin
      then Appended(st, Job(st.jobCounter, st.fgPid, true, true, false, true, st.original))
      else st;
    if st.fgPid > 0 && !st.builtin {
      AppendedKeepsInv(st, Job(st.jobCounter, st.fgPid, true, true, false, true, st.original));
    }
    if st.fgPid > 0 {
      MarkKeepsInv(st1, PidIs(st.fgPid), Suspended);
    }
  }

  lemma RemoveKeepsInv(st: State, pid: int, di: int)
    requires Inv(st) && -1 <= di < MaxProcess
    ensures Inv(Remove(st, pid, di).0)
  {
    var key := PidIs(pid);
    var k := LastHit(st.slots, key);
    var d := if k == -1 then di else k;
    var st1 := st.(slots := Updated(st.slots, key, Gone));
    MarkKeepsInv(st, key, Gone);
    if d != -1 {
      RemovedKeepsInv(st1, d);
    }
  }

  lemma {:induction false} ReapKeepsInv(st: State, events: seq<Event>, di: int)
    requires Inv(st) && -1 <= di < MaxProcess
    ensures Inv(Reap(st, events, di))
    decreases |events|
  {
    if events != [] {
      var (st1, d1) := ReapOne(st, events[0], di);
      RemoveKeepsInv(st.(foreground := false), events[0].pid, di);
      ReapKeepsInv(st1, events[1..], d1);
    }
  }

  lemma ChildStatusKeepsInv(st: State, events: seq<Event>)
    requires Inv(st)
    ensures Inv(ChildStatus(st, events))
  {
    ReapKeepsInv(st, events, -1);
  }

  // ---------------------------------------------------------------------
  // The main loop
  // ---------------------------------------------------------------------

  lemma FgTargetKeepsInv(st: State, n: int)
    requires Inv(st)
    ensures Inv(FgTarget(st, n))
  {
    MarkKeepsInv(st, PidOrId(n), Fronted);
  }

  lemma BgTargetKeepsInv(st: State, n: int)
    requires Inv(st)
    ensures Inv(BgTarget(st, n))
  {
    MarkKeepsInv(st, Resumable(n), Resumed);
  }

  lemma KillTargetKeepsInv(st: State, n: int)
    requires Inv(st)
    ensures Inv(KillTarget(st, n))
  {
    RemoveKeepsInv(st.(effects := st.effects + [Signal(n, SigKill), Wait(n)]), n, -1);
  }

  /** The bare-number check only prints. */
  lemma BareCheckKeepsInv(st: State, arg: string)
    requires Inv(st)
    ensures Inv(BareCheck(st, arg).0)
  {
  }

  lemma KillKeepsInv(st: State, arg: string)
    requires Inv(st) && |arg| > 0
    ensures Inv(KillCommand(st, arg))
  {
    var st0 := st.(builtin := true);
    if arg[0] == '%' {
      KillTargetKeepsInv(st0, JobPid(st.slots, JobDigit(arg)));
    } else {
      BareCheckKeepsInv(st0, arg);
      var (st1, t) := BareCheck(st0, arg);
      KillTargetKeepsInv(st1, t);
    }
  }

  lemma FgKeepsInv(st: State, arg: string)
    requires Inv(st) && |arg| > 0
    ensures Inv(FgCommand(st, arg))
  {
    var st0 := st.(builtin := true);
    if arg[0] == '%' {
      FgTargetKeepsInv(st0, JobDigit(arg));
    } else {
      BareCheckKeepsInv(st0, arg);
      var (st1, t) := BareCheck(st0, arg);
      FgTargetKeepsInv(st1, t);
    }
  }

  lemma BgKeepsInv(st: State, arg: string)
    requires Inv(st) && |arg| > 0
    ensures Inv(BgCommand(st, arg))
  {
    var st0 := st.(builtin := true);
    if arg[0] == '%' {
      BgTargetKeepsInv(st0, JobDigit(arg));
    } else {
      BareCheckKeepsInv(st0, arg);
      var (st1, t) := BareCheck(st0, arg);
      BgTargetKeepsInv(st1, t);
    }
  }

  lemma LaunchBackgroundKeepsInv(st: State, pid: int, args: seq<string>)
    requires Inv(st) && st.jobIndex < MaxProcess
    ensures Inv(LaunchBackground(st, pid, args))
  {
    AppendedKeepsInv(st.(builtin := false, foreground := false,
                         effects := st.effects + [SetGroup(pid), Exec(pid, args, Inherit, false)]),
                     Job(st.jobCounter, pid, false, true, false, true, st.original));
  }

  /** What one pass of the main loop does to the table: nothing, one of
      the three commands, or a background launch. */
  lemma StepTable(st: State, line: string, pid: int)
    requires |st.slots| == MaxProcess && Admissible(st, line)
    ensures var st0 := st.(original := StripNewline(line));
            var args := Tokenize(st0.original);
            var r := Step(st, line, pid).0;
            (r.slots == st.slots && r.jobIndex == st.jobIndex && r.jobCounter == st.jobCounter)
            || (|args| > 1 && (r == KillCommand(st0, args[1]) || r == FgCommand(st0, args[1])
                               || r == BgCommand(st0, args[1])))
            || (st.jobIndex < MaxProcess && r == LaunchBackground(st0, pid, args))
  {
    var st0 := st.(original := StripNewline(line));
    var args := Tokenize(st0.original);
    if args != [] && (args[0] == "kill" || args[0] == "fg" || args[0] == "bg") {
      assert |args| > 1;
    } else if args != [] && !(args[0] == "cd" || args[0] == "pwd" || args[0] == "jobs" || args[0] == "quit")
              && InBackground(args) && st0.maxJobs < MaxRunning {
      assert st.jobIndex < MaxProcess;
    }
  }
  /** Every pass of the main loop keeps the invariant. */
  lemma StepKeepsInv(st: State, line: string, pid: int)
    requires Inv(st) && Admissible(st, line)
    ensures Inv(Step(st, line, pid).0)
  {
    var st0 := st.(original := StripNewline(line));
    var args := Tokenize(st0.original);
    StepTable(st, line, pid);
    if |args| > 1 {
      KillKeepsInv(st0, args[1]);
      FgKeepsInv(st0, args[1]);
      BgKeepsInv(st0, args[1]);
    }
    if st.jobIndex < MaxProcess {
      LaunchBackgroundKeepsInv(st0, pid, args);
    }
  }
}
