/** The table scans of shell.c as the loops run them: one function for
    what a single pass of each loop does with one entry, and a left fold of
    it over the entries scanned so far. The loops in shell.dfy keep the
    fold as their invariant; the lemmas here show that the fold, run over
    the whole table, gives what module Jobs states in closed form (the last
    match, the number of matches, one signal per match). */
module Scans {
  import opened Jobs

  // ---------------------------------------------------------------------
  // sigint_handler: deleteIndex, max_jobs and the signals sent
  // ---------------------------------------------------------------------

  /** What the `sigint_handler` loop carries: the delete index, `max_jobs`
      and the effect log. */
  datatype IntCarry = IntCarry(deleteIndex: int, maxJobs: int, effects: seq<Effect>)

  /** One pass of the `sigint_handler` loop over entry i. */
  function IntEntry(pid: int, i: int, j: Job, c: IntCarry): IntCarry {
    if j.pid == pid
    then IntCarry(i, c.maxJobs - 1, c.effects + [Signal(pid, SigInt)])
    else c
  }

  function IntScan(s: seq<Job>, pid: int, c: IntCarry): IntCarry {
    if s == [] then c
    else IntEntry(pid, |s| - 1, s[|s| - 1], IntScan(s[..|s| - 1], pid, c))
  }

  /** The loop ends with the last entry of the pid as delete index, one
      unguarded decrement per entry of the pid, and one SIGINT each. */
  lemma {:induction false} IntScanIs(s: seq<Job>, pid: int, c: IntCarry)
    ensures var k := LastHit(s, PidIs(pid));
            IntScan(s, pid, c).deleteIndex == if k == -1 then c.deleteIndex else k
    ensures IntScan(s, pid, c).maxJobs == c.maxJobs - Count(s, PidIs(pid))
    ensures IntScan(s, pid, c).effects == c.effects + Signals(s, PidIs(pid), SigInt)
  {
    if s != [] {
      IntScanIs(s[..|s| - 1], pid, c);
    }
  }

  // ---------------------------------------------------------------------
  // The removal code: delete index and max_jobs
  // ---------------------------------------------------------------------

  /** What the marking loop of the removal code carries. */
  datatype GoneCarry = GoneCarry(deleteIndex: int, maxJobs: int)

  /** One pass of the marking loop over entry i. */
  function GoneEntry(pid: int, i: int, j: Job, c: GoneCarry): GoneCarry {
    if j.pid == pid
    then GoneCarry(i, if c.maxJobs > 0 then c.maxJobs - 1 else c.maxJobs)
    else c
  }

  function GoneScan(s: seq<Job>, pid: int, c: GoneCarry): GoneCarry {
    if s == [] then c
    else GoneEntry(pid, |s| - 1, s[|s| - 1], GoneScan(s[..|s| - 1], pid, c))
  }

  /** One more guarded decrement. */
  lemma GuardedDecrementStep(m: int, c: nat)
    ensures GuardedDecrement(m, c + 1)
         == (var g := GuardedDecrement(m, c); if g > 0 then g - 1 else g)
  {
  }

  /** The loop ends with the last entry of the pid as delete index (the
      incoming one when there is none) and one guarded decrement per entry
      of the pid. */
  lemma {:induction false} GoneScanIs(s: seq<Job>, pid: int, c: GoneCarry)
    ensures var k := LastHit(s, PidIs(pid));
            GoneScan(s, pid, c).deleteIndex == if k == -1 then c.deleteIndex else k
    ensures GoneScan(s, pid, c).maxJobs == GuardedDecrement(c.maxJobs, Count(s, PidIs(pid)))
  {
    if s != [] {
      var t := s[..|s| - 1];
      GoneScanIs(t, pid, c);
      GuardedDecrementStep(c.maxJobs, Count(t, PidIs(pid)));
    }
  }

  // ---------------------------------------------------------------------
  // fg and bg: foreground_pid, the foreground flag and the signals sent
  // ---------------------------------------------------------------------

  /** What the `fg` and `bg` loops carry. */
  datatype MoveCarry = MoveCarry(fgPid: int, foreground: bool, effects: seq<Effect>)

  /** One pass of the `fg` loop. */
  function FgEntry(n: int, j: Job, c: MoveCarry): MoveCarry {
    if j.pid == n || j.id == n then
      MoveCarry(j.pid, c.foreground || !j.foreground || !j.running,
                c.effects + if !j.running then [Signal(j.pid, SigCont)] else [])
    else c
  }

  function FgScan(s: seq<Job>, n: int, c: MoveCarry): MoveCarry {
    if s == [] then c else FgEntry(n, s[|s| - 1], FgScan(s[..|s| - 1], n, c))
  }

  /** The `fg` loop ends with the pid of the last match in
      `foreground_pid`, the flag raised when some match was in the
      background or stopped, and one SIGCONT per stopped match. */
  lemma {:induction false} FgScanIs(s: seq<Job>, n: int, c: MoveCarry)
    ensures var k := LastHit(s, PidOrId(n));
            FgScan(s, n, c).fgPid == if k == -1 then c.fgPid else s[k].pid
    ensures FgScan(s, n, c).foreground == (c.foreground || Count(s, Waking(n)) > 0)
    ensures FgScan(s, n, c).effects == c.effects + Signals(s, Paused(n), SigCont)
  {
    if s != [] {
      var t := s[..|s| - 1];
      FgScanIs(t, n, c);
      var k := LastHit(t, PidOrId(n));
      if k != -1 {
        assert s[k] == t[k];
      }
    }
  }

  /** One pass of the `bg` loop. */
  function BgEntry(n: int, j: Job, c: MoveCarry): MoveCarry {
    if j.pid == n || j.id == n then
      if j.foreground && !j.running
      then MoveCarry(j.pid, false, c.effects + [SetGroup(j.pid), Signal(j.pid, SigCont)])
      else c.(effects := c.effects + [SetGroup(j.pid)])
    else c
  }

  function BgScan(s: seq<Job>, n: int, c: MoveCarry): MoveCarry {
    if s == [] then c else BgEntry(n, s[|s| - 1], BgScan(s[..|s| - 1], n, c))
  }

  /** The `bg` loop ends with the pid of the last resumed entry in
      `foreground_pid` and the flag cleared when there is one, and with
      the process-group moves and SIGCONTs of BgEffects. */
  lemma {:induction false} BgScanIs(s: seq<Job>, n: int, c: MoveCarry)
    ensures var k := LastHit(s, Resumable(n));
            BgScan(s, n, c).fgPid == (if k == -1 then c.fgPid else s[k].pid)
            && BgScan(s, n, c).foreground == (if k == -1 then c.foreground else false)
    ensures BgScan(s, n, c).effects == c.effects + BgEffects(s, n)
  {
    if s != [] {
      var t := s[..|s| - 1];
      BgScanIs(t, n, c);
      var k := LastHit(t, Resumable(n));
      if k != -1 {
        assert s[k] == t[k];
      }
    }
  }
}
