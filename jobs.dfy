/** The shell's job table and the global variables around it, as values:
    the entries of `processes[56]`, the counters `job_index`, `job_counter`
    and `max_jobs`, `foreground_pid`, the `foreground` and `builtin` flags,
    the saved input line `original`, and two logs for what the shell does
    outside itself (signals, waits, process-group moves and exec's of the
    children it forks) and for what it prints.

    Every handler and every branch of the main loop is one function from
    the state before to the state after. The class in shell.dfy performs
    the same steps in place and is proved to agree with these functions. */
module Jobs {
  import opened Common
  import opened Parsing

  /** `MAX_PROCESS` */
  const MaxProcess: nat := 56
  /** The concurrency ceiling checked before every launch. */
  const MaxRunning: int := 5

  const PercentMessage: string := "% should be placed before a Job ID.\n"
  const UnknownMessage: string :=
    "Process ID or Job ID should be an existing process or has been formatted wrong.\n"
  const CeilingMessage: string :=
    "Maximum number of jobs that can be running concurrently is 5.\n"

  /** `struct job_control`. */
  datatype Job = Job(id: int, pid: int, foreground: bool, running: bool,
                     terminated: bool, show: bool, command: string)

  /** A slot as zero-initialised global memory leaves it. */
  const Blank: Job := Job(0, 0, false, false, false, false, "")

  datatype Sig = SigInt | SigKill | SigTstp | SigCont

  /** What the shell asks of the operating system. `Exec` records the
      program, argument vector and stream set-up a forked child runs. */
  datatype Effect =
    | Signal(pid: int, sig: Sig)
    | Wait(pid: int)
    | SetGroup(pid: int)
    | Exec(pid: int, argv: seq<string>, redirect: Redirect, resetStop: bool)

  // ---------------------------------------------------------------------
  // Scans over the table
  // ---------------------------------------------------------------------

  /** The tests the table scans apply to one entry. */
  datatype Key =
    | PidIs(pid: int)           // job_pid == pid
    | IdIs(id: int)             // job_id == id
    | PidOrId(n: int)           // job_pid == n || job_id == n   (fg, bg)
    | Paused(n: int)            // ... and not running            (fg resumes it)
    | Waking(n: int)            // ... and not foreground or not running
    | Resumable(n: int)         // ... and foreground and not running (bg)
    | Listed                    // !terminated && show            (jobs)
    | Every

  predicate Hit(k: Key, j: Job) {
    match k
    case PidIs(p) => j.pid == p
    case IdIs(i) => j.id == i
    case PidOrId(n) => j.pid == n || j.id == n
    case Paused(n) => (j.pid == n || j.id == n) && !j.running
    case Waking(n) => (j.pid == n || j.id == n) && (!j.foreground || !j.running)
    case Resumable(n) => (j.pid == n || j.id == n) && j.foreground && !j.running
    case Listed => !j.terminated && j.show
    case Every => true
  }

  /** Number of entries the test selects. */
  function Count(s: seq<Job>, k: Key): (c: nat)
    ensures c <= |s|
  {
    if s == [] then 0
    else Count(s[..|s| - 1], k) + if Hit(k, s[|s| - 1]) then 1 else 0
  }

  /** The count is zero exactly when no entry is selected. */
  lemma {:induction false} CountZero(s: seq<Job>, k: Key)
    ensures Count(s, k) == 0 <==> forall i :: 0 <= i < |s| ==> !Hit(k, s[i])
  {
    if s != [] {
      var t := s[..|s| - 1];
      CountZero(t, k);
      assert forall i :: 0 <= i < |t| ==> t[i] == s[i];
    }
  }

  /** Index of the last selected entry, -1 when there is none. */
  function LastHit(s: seq<Job>, k: Key): (r: int)
    ensures -1 <= r < |s|
  {
    if s == [] then -1
    else if Hit(k, s[|s| - 1]) then |s| - 1
    else LastHit(s[..|s| - 1], k)
  }

  /** LastHit selects an entry and no later entry is selected. */
  lemma {:induction false} LastHitIsLast(s: seq<Job>, k: Key)
    ensures var r := LastHit(s, k);
            (r >= 0 ==> Hit(k, s[r])) && forall i :: r < i < |s| ==> !Hit(k, s[i])
  {
    if s != [] && !Hit(k, s[|s| - 1]) {
      var t := s[..|s| - 1];
      LastHitIsLast(t, k);
      assert forall i :: 0 <= i < |t| ==> t[i] == s[i];
    }
  }

  /** Index of the first selected entry, |s| when there is none. */
  function FirstHit(s: seq<Job>, k: Key): (r: nat)
    ensures r <= |s|
  {
    if s == [] then 0
    else if Hit(k, s[0]) then 0
    else 1 + FirstHit(s[1..], k)
  }

  /** FirstHit selects an entry and no earlier entry is selected. */
  lemma {:induction false} FirstHitIsFirst(s: seq<Job>, k: Key)
    ensures var r := FirstHit(s, k);
            (r < |s| ==> Hit(k, s[r])) && forall i :: 0 <= i < r ==> !Hit(k, s[i])
  {
    if s != [] && !Hit(k, s[0]) {
      FirstHitIsFirst(s[1..], k);
    }
  }

  /** The index where nothing before is selected and the entry there is
      (or the end is reached) is FirstHit. */
  lemma {:induction false} FirstHitAt(s: seq<Job>, k: Key, i: nat)
    requires i <= |s|
    requires forall j :: 0 <= j < i ==> !Hit(k, s[j])
    requires i < |s| ==> Hit(k, s[i])
    ensures FirstHit(s, k) == i
  {
    if s != [] && i > 0 {
      FirstHitAt(s[1..], k, i - 1);
    }
  }

  /** Flag writes the scans perform on a selected entry. */
  datatype Action = Suspended | Gone | Fronted | Resumed

  function Apply(a: Action, j: Job): Job {
    match a
    case Suspended => j.(running := false, terminated := false, show := true)
    case Gone => j.(terminated := true, show := false)
    case Fronted => j.(foreground := true, running := true)
    case Resumed => j.(foreground := false, running := true)
  }

  function Touch(k: Key, a: Action, j: Job): Job {
    if Hit(k, j) then Apply(a, j) else j
  }

  /** The table after a scan that applies `a` to every selected entry. */
  function Updated(s: seq<Job>, k: Key, a: Action): (r: seq<Job>)
    ensures |r| == |s|
  {
    seq(|s|, i requires 0 <= i < |s| => Touch(k, a, s[i]))
  }

  /** The shift-left delete: entry k goes, later entries move one slot
      down, the last slot is left as it was (so it appears twice). */
  function Removed(s: seq<Job>, k: nat): (r: seq<Job>)
    requires k < |s|
    ensures |r| == |s|
  {
    ShiftedLeft(s, k, |s| - 1)
  }

  /** One signal per selected entry, in table order. */
  function Signals(s: seq<Job>, k: Key, sig: Sig): seq<Effect> {
    if s == [] then []
    else Signals(s[..|s| - 1], k, sig) +
         if Hit(k, s[|s| - 1]) then [Signal(s[|s| - 1].pid, sig)] else []
  }

  /** What `bg` asks of the system for one entry. */
  function BgEffectsOf(n: int, j: Job): seq<Effect> {
    if Hit(PidOrId(n), j) then
      [SetGroup(j.pid)] + if Hit(Resumable(n), j) then [Signal(j.pid, SigCont)] else []
    else []
  }

  function BgEffects(s: seq<Job>, n: int): seq<Effect> {
    if s == [] then [] else BgEffects(s[..|s| - 1], n) + BgEffectsOf(n, s[|s| - 1])
  }

  /** One line of `jobs`: `[id] (pid) Running  command` or `... Stopped  ...`. */
  function FormatJob(j: Job): string {
    "[" + IntToString(j.id) + "] (" + IntToString(j.pid) + ") "
    + (if j.running then "Running " else "Stopped ") + " "
    + j.command + "\n"
  }

  /** The lines `jobs` prints for the entries of s. */
  function Listing(s: seq<Job>): seq<string> {
    if s == [] then []
    else Listing(s[..|s| - 1]) + if Hit(Listed, s[|s| - 1]) then [FormatJob(s[|s| - 1])] else []
  }

  /** `if (max_jobs > 0) max_jobs--;` once per selected entry. */
  function GuardedDecrement(m: int, c: nat): (r: int)
    ensures m <= 0 ==> r == m
    ensures m > 0 ==> r == if c <= m then m - c else 0
  {
    if c == 0 || m <= 0 then m else GuardedDecrement(m - 1, c - 1)
  }

  // ---------------------------------------------------------------------
  // The shell state
  // ---------------------------------------------------------------------

  datatype State = State(
    slots: seq<Job>,          // processes[]
    jobIndex: int,            // job_index
    jobCounter: int,          // job_counter
    maxJobs: int,             // max_jobs
    fgPid: int,               // foreground_pid
    foreground: bool,         // foreground
    builtin: bool,            // builtin
    original: string,         // original
    effects: seq<Effect>,     // signals, waits, setpgid, children exec'd
    output: seq<string>)      // messages and job listings printed

  function Initial(): State {
    State(seq(MaxProcess, _ => Blank), 0, 1, 0, 0, false, false, "", [], [])
  }

  /** An entry appended at `job_index`, as both the stop handler and the
      background launch write it. */
  function Appended(st: State, j: Job): State
    requires 0 <= st.jobIndex < |st.slots|
  {
    st.(slots := st.slots[st.jobIndex := j],
        jobIndex := st.jobIndex + 1,
        jobCounter := st.jobCounter + 1,
        maxJobs := st.maxJobs + 1)
  }

  // ---------------------------------------------------------------------
  // Signal handlers
  // ---------------------------------------------------------------------

  /** `sigint_handler`: every entry of the foreground pid costs one
      unguarded decrement of max_jobs and one SIGINT; the last of them is
      shifted out. */
  function Interrupt(st: State): State
    requires |st.slots| == MaxProcess
  {
    if st.fgPid > 0 then
      var key := PidIs(st.fgPid);
      var k := LastHit(st.slots, key);
      st.(foreground := false,
          maxJobs := st.maxJobs - Count(st.slots, key),
          slots := if k == -1 then st.slots else Removed(st.slots, k),
          effects := st.effects + Signals(st.slots, key, SigInt))
    else st.(foreground := false)
  }

  /** `sigtstp_handler`: unless a builtin ran last, a new foreground entry
      for the foreground pid is appended; then every entry of that pid is
      marked stopped and shown, with one SIGTSTP each. */
  function Stop(st: State): State
    requires |st.slots| == MaxProcess
    requires st.fgPid > 0 && !st.builtin ==> 0 <= st.jobIndex < MaxProcess
  {
    var st1 :=
      if st.fgPid > 0 && !st.builtin
      then Appended(st, Job(st.jobCounter, st.fgPid, true, true, false, true, st.original))
      else st;
    var key := PidIs(st.fgPid);
    var st2 :=
      if st.fgPid > 0
      then st1.(slots := Updated(st1.slots, key, Suspended),
                effects := st1.effects + Signals(st1.slots, key, SigTstp))
      else st1;
    st2.(foreground := false)
  }

  /** What `waitpid` reports for one child. */
  datatype Status = Exited(code: int) | Killed | Halted | Continued
  datatype Event = Event(pid: int, status: Status)

  /** The removal code shared by the reap branches and `kill`: every entry
      of `pid` is marked terminated and hidden with a guarded decrement
      each, and the entry at the delete index is shifted out. The delete
      index is the last entry of `pid`, or `di` when there is none. */
  function Remove(st: State, pid: int, di: int): (r: (State, int))
    requires |st.slots| == MaxProcess && -1 <= di < MaxProcess
    ensures |r.0.slots| == MaxProcess && -1 <= r.1 < MaxProcess
  {
    var key := PidIs(pid);
    var k := LastHit(st.slots, key);
    var d := if k == -1 then di else k;
    var marked := Updated(st.slots, key, Gone);
    (st.(slots := if d == -1 then marked else Removed(marked, d),
         maxJobs := GuardedDecrement(st.maxJobs, Count(st.slots, key))),
     d)
  }

  /** One pass of the reap loop in `sigchld_handler`; `di` is the
      delete index left by the previous pass. */
  function ReapOne(st: State, ev: Event, di: int): (r: (State, int))
    requires |st.slots| == MaxProcess && -1 <= di < MaxProcess
    ensures |r.0.slots| == MaxProcess && -1 <= r.1 < MaxProcess
  {
    match ev.status
    case Exited(code) =>
      if code != 0 then (st.(foreground := false), di)
      else Remove(st.(foreground := false), ev.pid, di)
    case Killed => Remove(st.(foreground := false), ev.pid, di)
    case Halted => (st.(foreground := false), di)
    case Continued => (st.(foreground := true), di)
  }

  function Reap(st: State, events: seq<Event>, di: int): (r: State)
    requires |st.slots| == MaxProcess && -1 <= di < MaxProcess
    ensures |r.slots| == MaxProcess
    decreases |events|
  {
    if events == [] then st
    else
      var (st1, d1) := ReapOne(st, events[0], di);
      Reap(st1, events[1..], d1)
  }

  /** `sigchld_handler`: the reap loop over everything `waitpid` reports,
      with one delete index for the whole loop. */
  function ChildStatus(st: State, events: seq<Event>): State
    requires |st.slots| == MaxProcess
  {
    Reap(st, events, -1)
  }

  // ---------------------------------------------------------------------
  // Builtins
  // ---------------------------------------------------------------------

  /** `jobs`. */
  function ListJobs(st: State): State {
    st.(builtin := true, output := st.output + Listing(st.slots))
  }

  /** `quit`: SIGKILL to the pid of every slot, used or not. */
  function Quit(st: State): State {
    st.(builtin := true, effects := st.effects + Signals(st.slots, Every, SigKill))
  }

  /** `kill %N`: the pid of the last entry whose id is N, 0 when none. */
  function JobPid(s: seq<Job>, id: int): int {
    var k := LastHit(s, IdIs(id));
    if k == -1 then 0 else s[k].pid
  }

  /** The bare-number check: the scan stops at the first entry whose id is
      n; n is taken as a pid when some entry before that has pid n. */
  function BareTarget(s: seq<Job>, n: int): int {
    if Count(s[..FirstHit(s, IdIs(n))], PidIs(n)) > 0 then n else 0
  }

  function BareNotes(s: seq<Job>, n: int): seq<string> {
    if FirstHit(s, IdIs(n)) < |s| then [PercentMessage] else []
  }

  /** `kill` once the target pid is known. */
  function KillTarget(st: State, t: int): State
    requires |st.slots| == MaxProcess
  {
    Remove(st.(effects := st.effects + [Signal(t, SigKill), Wait(t)]), t, -1).0
  }

  /** `fg` once the number to match is known. */
  function FgTarget(st: State, n: int): State {
    var k := LastHit(st.slots, PidOrId(n));
    st.(fgPid := if k == -1 then st.fgPid else st.slots[k].pid,
        foreground := st.foreground || Count(st.slots, Waking(n)) > 0,
        slots := Updated(st.slots, PidOrId(n), Fronted),
        effects := st.effects + Signals(st.slots, Paused(n), SigCont))
  }

  /** `bg` once the number to match is known. */
  function BgTarget(st: State, n: int): State {
    var k := LastHit(st.slots, Resumable(n));
    st.(fgPid := if k == -1 then st.fgPid else st.slots[k].pid,
        foreground := if k == -1 then st.foreground else false,
        slots := Updated(st.slots, Resumable(n), Resumed),
        effects := st.effects + BgEffects(st.slots, n))
  }

  /** The bare-number form of the argument of `kill`, `fg` and `bg`: the
      target found by the check, with the notes it prints and, when no
      target is found, the message that ends the command. */
  function BareCheck(st: State, arg: string): (State, int) {
    var n := Atoi(arg);
    var t := BareTarget(st.slots, n);
    (st.(output := st.output + BareNotes(st.slots, n) + if t == 0 then [UnknownMessage] else []), t)
  }

  /** `kill` with its argument `args[1]`. */
  function KillCommand(st: State, arg: string): State
    requires |st.slots| == MaxProcess && |arg| > 0
  {
    var st0 := st.(builtin := true);
    if arg[0] == '%' then KillTarget(st0, JobPid(st.slots, JobDigit(arg)))
    else
      var (st1, t) := BareCheck(st0, arg);
      if t == 0 then st1 else KillTarget(st1, t)
  }

  /** `fg` with its argument `args[1]`. */
  function FgCommand(st: State, arg: string): State
    requires |arg| > 0
  {
    var st0 := st.(builtin := true);
    if arg[0] == '%' then FgTarget(st0, JobDigit(arg))
    else
      var (st1, t) := BareCheck(st0, arg);
      if t == 0 then st1 else FgTarget(st1, t)
  }

  /** `bg` with its argument `args[1]`. */
  function BgCommand(st: State, arg: string): State
    requires |arg| > 0
  {
    var st0 := st.(builtin := true);
    if arg[0] == '%' then BgTarget(st0, JobDigit(arg))
    else
      var (st1, t) := BareCheck(st0, arg);
      if t == 0 then st1 else BgTarget(st1, t)
  }

  // ---------------------------------------------------------------------
  // Launches and the main loop
  // ---------------------------------------------------------------------

  /** Background launch: one new running background entry at `job_index`;
      the child first moves into a process group of its own, then execs
      the arguments unchanged, `&` included. */
  function LaunchBackground(st: State, pid: int, args: seq<string>): State
    requires 0 <= st.jobIndex < |st.slots|
  {
    Appended(st.(builtin := false, foreground := false,
                 effects := st.effects + [SetGroup(pid), Exec(pid, args, Inherit, false)]),
             Job(st.jobCounter, pid, false, true, false, true, st.original))
  }

  /** The child of a foreground launch, given the redirection scan. */
  function ChildExec(pid: int, args: seq<string>, r: Redirection): Effect
    requires -1 <= r.deleteIndex < |args|
  {
    Exec(pid, ShiftedArgv(args, r), RedirectOf(r), RedirectOf(r) == Inherit)
  }

  /** Foreground launch, parent side: no entry is created. */
  function LaunchForeground(st: State, pid: int, args: seq<string>): State {
    st.(foreground := true, builtin := false, fgPid := pid,
        effects := st.effects + [ChildExec(pid, args, Redirections(args))])
  }

  /** The command names the main loop handles itself, before it looks for
      a trailing `&`. */
  predicate IsBuiltin(w: string) {
    w == "cd" || w == "pwd" || w == "jobs" || w == "kill" || w == "fg" || w == "bg" || w == "quit"
  }

  predicate InBackground(args: seq<string>) {
    |args| > 1 && args[|args| - 1] == "&"
  }

  /** What the source takes for granted of a command line: `kill`, `fg`
      and `bg` have an argument, and a background launch of a program (not
      of a builtin followed by `&`) has a free slot at `job_index`. */
  predicate Admissible(st: State, line: string) {
    var args := Tokenize(StripNewline(line));
    (|args| > 0 && (args[0] == "kill" || args[0] == "fg" || args[0] == "bg") ==> |args| > 1)
    && (|args| > 0 && !IsBuiltin(args[0]) && InBackground(args) && st.maxJobs < MaxRunning
        ==> 0 <= st.jobIndex < |st.slots|)
  }

  /** One pass of the main loop on an input line; `pid` is what `fork`
      returns to the parent if the line launches a program. The boolean is
      true when the shell leaves the loop. */
  function Step(st: State, line: string, pid: int): (State, bool)
    requires |st.slots| == MaxProcess && Admissible(st, line)
  {
    var st0 := st.(original := StripNewline(line));
    var args := Tokenize(st0.original);
    if args == [] then (st0, false)
    else if args[0] == "cd" || args[0] == "pwd" then (st0.(builtin := true), false)
    else if args[0] == "jobs" then (ListJobs(st0), false)
    else if args[0] == "kill" then (KillCommand(st0, args[1]), false)
    else if args[0] == "fg" then (FgCommand(st0, args[1]), false)
    else if args[0] == "bg" then (BgCommand(st0, args[1]), false)
    else if args[0] == "quit" then (Quit(st0), true)
    else if InBackground(args) && st0.maxJobs < MaxRunning then (LaunchBackground(st0, pid, args), false)
    else if st0.maxJobs < MaxRunning then (LaunchForeground(st0, pid, args), false)
    else (st0.(output := st0.output + [CeilingMessage]), false)
  }

  // ---------------------------------------------------------------------
  // The table invariant
  // ---------------------------------------------------------------------

  /** A slot no job has been written to: ids, pids, display flag and
      command still zero (other flags may have been flipped by a scan that
      matched pid 0 or id 0). */
  predicate Free(j: Job) {
    j.id == 0 && j.pid == 0 && !j.show && j.command == ""
  }

  /** Job ids grow along the table; strictly while job_index has not yet
      reached the end (after that a delete leaves the last entry twice). */
  predicate IdsOrdered(s: seq<Job>, strict: bool) {
    forall i, j :: 0 <= i < j < |s| && s[i].id != 0 && s[j].id != 0 ==>
      if strict then s[i].id < s[j].id else s[i].id <= s[j].id
  }

  ghost predicate Inv(st: State) {
    |st.slots| == MaxProcess
    && 0 <= st.jobIndex <= MaxProcess
    && st.jobCounter >= 1
    && (forall i :: st.jobIndex <= i < MaxProcess ==> Free(st.slots[i]))
    && (forall i :: 0 <= i < MaxProcess ==>
          st.slots[i].id == 0 || 1 <= st.slots[i].id < st.jobCounter)
    && IdsOrdered(st.slots, st.jobIndex < MaxProcess)
  }
}
