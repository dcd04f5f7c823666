# Job control of a small Unix shell, in Dafny

This project models the job table of a teaching shell written in C
(`shell.c`). It also models the command-line parsing the job table depends on.

## The job table

The job table is the global array `processes[56]` of `struct job_control`:
id, pid, the foreground/running/terminated/show flags, and the command text.
Around it sit these globals:

- `job_index`: the next slot to write;
- `job_counter`: the next job id;
- `max_jobs`: the running-job counter, with a ceiling of 5;
- `foreground_pid`;
- the `foreground` and `builtin` flags;
- the saved input line `original`.

These things change that state:

- the signal handlers `sigint_handler` (Ctrl+C), `sigtstp_handler` (Ctrl+Z) and `sigchld_handler` (child status changes);
- the builtins `jobs`, `kill`, `fg`, `bg` and `quit`;
- the background and foreground launches of external programs.

## Parsing

The parsing is:

- the trailing-newline strip;
- the `strtok` split on blanks and tabs;
- the scan for `>`, `<` and `>>`;
- the argument-vector shift a foreground child performs before `execvp`;
- the number readers of the job builtins: `atoi`, and `%N`, which reads one character;
- the `%i` formatting of `jobs`.

## Module layout

- `common.dfy` (module `Common`): `Option`, the shift-left of a sequence, and the in-place shift-left on an array.
- `parsing.dfy` (module `Parsing`): the parsing.
  - The redirection scan is a function stating its outcome (the last operator, the last operator that sets `file2`, the token after each).
  - The same scan is also a loop method, proved to agree with that function.
- `jobs.dfy` (module `Jobs`): the shell's state as a value (`State`), and every handler and main-loop branch as a function from state to state. This module also holds the table invariant `Inv`.
- `scans.dfy` (module `Scans`): each table loop as a fold of its one-entry step. Lemmas show that each fold gives the closed form `Jobs` states: the last match, the number of matches, one signal per match.
- `shell.dfy` (module `JobControl`): class `Shell`, with `processes` as an `array<Job>` of length 56 and the globals as fields.
  - Each handler and builtin is a method that changes the array and fields in place, loop by loop, as the C code does.
  - Each method is proved to leave exactly the state the corresponding `Jobs` function describes.
- `job_facts.dfy` (module `JobFacts`): the properties the code promises, proved about the `Jobs` functions.
- `table_invariant.dfy` (module `TableInvariant`): the table invariant holds initially, and every handler and every main-loop step preserves it.

## Interactions with the operating system

- `fork` becomes the `pid` parameter of a launch.
- What the non-blocking `waitpid` loop reports becomes a sequence of `(pid, status)` events.
- `kill`, the blocking `waitpid` of `kill`, `setpgid` and the child's `exec` become entries of an effect log.
  - The `Exec` entry records the argument vector and how the child's standard streams are redirected.
- Messages the shell prints (the `jobs` lines and the error messages of `kill`/`fg`/`bg` and of the launch ceiling) are appended to an output log.

## Quirks of the code that the model keeps

- `job_index` never goes down. The background launch and the stop handler therefore require it to be below 56.
- The shift-left delete leaves the last slot twice (`JobFacts.RemovedKeepsOrder`).
- `sigchld_handler` keeps one delete index across all children it reaps. A later child with no entry therefore deletes at the stale index (`JobFacts.StaleIndexDropsEntry`).
- A non-zero normal exit removes nothing.
- `sigint_handler` decrements `max_jobs` once per matching entry, without a guard, and deletes only the last match.
- The stop handler appends a new entry and raises `max_jobs` whenever `foreground_pid` is positive and `builtin` is false. It does this even when the pid already has an entry, and without checking the ceiling.
- `%N` reads one character (`Parsing.JobDigitReadsOneDigit`).
- `kill %N` with no job N sends SIGKILL to pid 0 and runs the removal code for pid 0.
- `fg %N` and `bg %N` match N against pids as well as ids.
- The argv shift keeps the file name.
  - The output and append shifts repeat the last argument.
  - The input shift moves the NULL terminator.

## Where the code departs from its evident intent (the model follows the code)

- The comment on `max_jobs` (shell.c:22) says it counts the jobs and stops new ones at 5.
  - The stop handler raises it without checking the ceiling (shell.c:84), so it can pass 5.
  - `sigint_handler` lowers it without a guard, once per entry of the foreground pid (shell.c:55), so it can go below 0.
- The reap loop calls a non-zero normal exit an error (shell.c:137-141). It only clears `foreground`: the job stays in the table and in `max_jobs`.
- The bare-number form of `kill` reports an unknown target and stops (shell.c:439-443). The `%N` form has no such test: with no job N it sends SIGKILL to pid 0 and runs the removal code for pid 0 (shell.c:422-448).
- `sigint_handler` decrements once per matching entry (shell.c:52-58) but shifts out only the last one (shell.c:62-67).
- The `%N` branches of `fg` and `bg` are marked as job ids (shell.c:472-473, 517-518). The loops after them match the number against pids as well (shell.c:496-497, 541-542).

## Model

| member | source | states |
|---|---|---|
| `Common.ShiftLeft` | shell.c:62-67 | the in-place loop `a[i] = a[i+1]` for `from <= i < to` leaves the array as `ShiftedLeft` of its old contents: entries before `from` and from `to` on are kept, each entry in between takes its right neighbour's value |
| `Common.ShiftedLeftAt` | shell.c:64-66 | entry i after the shift is entry i+1 inside the shifted range and entry i outside it |
| `Parsing.StripNewline` | shell.c:228-231 | the result is the line, or the line minus one final `\n`; it is the line itself exactly when the line is empty or does not end in `\n` |
| `Parsing.StripNewlineInverse` | shell.c:225-231 | stripping undoes the newline `fgets` keeps |
| `Parsing.RunLength` | shell.c:238-242 | the length of the maximal run of non-delimiters at the start, ending at a delimiter or at the end |
| `Parsing.Tokenize` | shell.c:236-244 | every token is non-empty and holds no blank and no tab |
| `Parsing.TokenizeJoin` | shell.c:236-244 | tokens written out with one blank between them split back into exactly those tokens |
| `Parsing.TokenizeKeepsText` | shell.c:236-244 | the tokens, concatenated, are the line's characters other than blanks and tabs, in order |
| `Parsing.LastOperator` | shell.c:248-270 | `file_delete_index` is the index of an operator with no operator after it, or -1 when there is none |
| `Parsing.LastSecondOperator` | shell.c:249-264 | the last `>` preceded by a `<`, or `<` preceded by a `>`, is the one whose follower `file2` keeps; none after it qualifies |
| `Parsing.Redirections` | shell.c:246-270 | the delete index lies in -1..argc-1 |
| `Parsing.ScanUpToIs` | shell.c:248-270 | running the scan loop over the first n tokens leaves the flags, `file`, `file2` and the delete index that those tokens call for |
| `Parsing.ScanRedirections` | shell.c:246-270 | the loop, token by token, leaves exactly the outcome `Redirections` states |
| `Parsing.InputShiftedVector` | shell.c:696-700 | the input branch's shift up to `argc` drops the operator and moves the NULL one slot left |
| `Parsing.OutputShiftedVector` | shell.c:632-636 | the output and append shift up to `argc-1` drops the operator and leaves the last argument twice |
| `Parsing.InputArgvDropsOperator` | shell.c:681-700 | with only `<` the child's argv is the arguments minus the `<` token, the file name kept |
| `Parsing.OutputArgvRepeatsLast` | shell.c:617-667 | with `>` or `>>` the child's argv is the arguments minus the operator plus the last argument again, or unchanged when the operator is last |
| `Parsing.RedirectOf` | shell.c:617-724 | how the child's streams are set up, decided in the code's branch order: output first, then append, then input, then none; its properties are stated by `InputArgvDropsOperator` and `OutputArgvRepeatsLast` |
| `Parsing.ShiftedArgv` | shell.c:632-700 | the argv a foreground child passes to `execvp`: the output and append branches shift up to `argc-1`, the input branch up to `argc`, read up to the first NULL; proved about by `InputShiftedVector`, `OutputShiftedVector`, `InputArgvDropsOperator` and `OutputArgvRepeatsLast` |
| `Parsing.DigitRun` | shell.c:430 | the digits `atoi` reads are the maximal run of digits at the start |
| `Parsing.NatToString` | shell.c:402 | `%i` of a natural number is a non-empty string of digits |
| `Parsing.ValueOfNatToString` | shell.c:402 | the digits `%i` prints have the printed number as their decimal value |
| `Parsing.AtoiReadsIntToString` | shell.c:430-436 | `atoi` reads back every number `%i` prints, negative ones included |
| `Parsing.JobDigitReadsOneDigit` | shell.c:419-421 | `%N` yields the job id exactly when the id is below 10, and otherwise its first digit |
| `Parsing.JobDigit` | shell.c:419-421 | `args[1][1] - '0'`: the code of the character after `%` minus that of `'0'` (the NUL for a bare `%`); its reading of job ids is stated by `JobDigitReadsOneDigit` |
| `Parsing.IntToString` | shell.c:402 | `printf("%i", n)`: a minus sign before the digits of a negative number; `Parsing.AtoiReadsIntToString` proves `atoi` reads every such string back as n |
| `Parsing.Atoi` | shell.c:430 | C's `atoi`: leading white space, an optional sign, then the maximal digit run, 0 when there is none; `AtoiReadsIntToString` proves it reads back every printed number |
| `Jobs.CountZero` | shell.c:429-444 | no entry matches exactly when the number of matches is zero |
| `Jobs.LastHitIsLast` | shell.c:52-58 | the index a scan leaves in `delete_index` is a match with no match after it, or -1 |
| `Jobs.FirstHitIsFirst` | shell.c:429-433 | the index where the bare-number scan breaks is a match with no match before it |
| `Jobs.FirstHitAt` | shell.c:429-433 | an index with no match before it and a match at it (or the end) is where the scan breaks |
| `Jobs.Removed` | shell.c:157-162 | the shift-left delete keeps 56 slots; `JobFacts.RemovedKeepsOrder` proves it keeps the entries before the index, moves the later ones down in order and leaves the last one twice |
| `Jobs.Signals` | shell.c:57 | one signal per selected entry, in table order; `JobFacts.SignalsEvery` proves a scan over every slot signals each slot's pid in order, and `JobFacts.SignalsNoExec` that it logs no exec |
| `Jobs.Appended` | shell.c:96-99 | the stop handler's and the background launch's write of a job at `job_index` with the three counters up by one; `TableInvariant.AppendedKeepsInv` proves it keeps the invariant when the job's id is `job_counter` |
| `Jobs.GuardedDecrement` | shell.c:151-153 | c guarded decrements of m leave m when m <= 0, and otherwise m - c, floored at 0 |
| `Jobs.Remove` | shell.c:146-162 | the removal keeps 56 slots and leaves a delete index in -1..55 |
| `Jobs.ReapOne` | shell.c:137-195 | one reaped child keeps 56 slots and a delete index in -1..55 |
| `Jobs.Reap` | shell.c:136-196 | the reap loop over the reported events, with the delete index carried from one event to the next; it keeps 56 slots |
| `Jobs.ChildStatus` | shell.c:124-197 | `sigchld_handler`: the reap loop started with delete index -1; its invariant and counter properties are `TableInvariant.ChildStatusKeepsInv` and `JobFacts.ReapKeepsMaxJobs` |
| `Jobs.FormatJob` | shell.c:401-409 | one `jobs` line: `[id] (pid) `, then `Running ` or `Stopped `, a blank, the command and a newline; used by `JobFacts.ListingIsShownEntries` |
| `Jobs.ListJobs` | shell.c:398-410 | `jobs`: sets `builtin` and prints `Listing` of the table; `JobFacts.ListingIsShownEntries` proves those are exactly the shown entries in table order |
| `Jobs.Quit` | shell.c:557-563 | `quit`: sets `builtin` and sends SIGKILL to the pid of every slot; `JobFacts.QuitKillsEverySlot` proves one signal per slot in table order and nothing else changed |
| `Jobs.Listing` | shell.c:398-410 | what the `jobs` loop prints, entry by entry in table order; `JobFacts.ListingIsShownEntries` proves it equal to the independent front-to-back filter |
| `Jobs.Interrupt` | shell.c:45-76 | `sigint_handler`: with a positive `foreground_pid`, one SIGINT and one unguarded decrement per entry of that pid, the last one shifted out; `foreground` cleared; `JobControl.Shell.Interrupt` is proved to do exactly this in place |
| `Jobs.Stop` | shell.c:78-122 | `sigtstp_handler`: the append when `foreground_pid` is positive and `builtin` false, then every entry of the pid stopped and shown with one SIGTSTP each; properties in `JobFacts.StopSuspends` |
| `Jobs.JobPid` | shell.c:419-426 | the target of `kill %N`: the pid of the last entry with id N, 0 when there is none |
| `Jobs.BareTarget` | shell.c:429-437 | the target of the bare-number check: n when an entry before the first entry with id n has pid n, else 0; characterised by `JobFacts.BareTargetFound` |
| `Jobs.BareNotes` | shell.c:429-433 | the `%` usage note, printed when some entry has id n |
| `Jobs.KillTarget` | shell.c:446-466 | `kill` once the target is known: SIGKILL and a blocking wait for it, then the removal code with a fresh delete index |
| `Jobs.FgTarget` | shell.c:494-512 | the `fg` scan: every pid-or-id match foreground and running, SIGCONT to stopped ones, `foreground_pid` the last match's pid; properties in `JobFacts.FgMarksMatches` |
| `Jobs.BgTarget` | shell.c:539-555 | the `bg` scan: one `setpgid` per match, foreground stopped matches resumed in the background; properties in `JobFacts.BgResumesStoppedForeground` |
| `Jobs.BareCheck` | shell.c:427-444 | the bare-number form: the notes, and the error message when no target is found |
| `Jobs.KillCommand` | shell.c:412-466 | `kill`: `%N` through `JobPid`, a bare number through the check (ending the command when no target is found), then `KillTarget` |
| `Jobs.FgCommand` | shell.c:468-512 | `fg`: the `%N` digit itself or the checked bare number, then `FgTarget` |
| `Jobs.BgCommand` | shell.c:513-556 | `bg`: the `%N` digit itself or the checked bare number, then `BgTarget` |
| `Jobs.LaunchBackground` | shell.c:564-608 | the parent of a background launch: the new running background job at `job_index`, the three counters up by one, the child's `setpgid` into its own group and its exec of the unchanged arguments; properties in `JobFacts.BackgroundLaunchWritesOneJob` |
| `Jobs.LaunchForeground` | shell.c:609-729 | the parent of a foreground launch: no entry, the child as foreground process, its exec with `ShiftedArgv` and `RedirectOf`; properties in `JobFacts.ForegroundLaunchAddsNoJob` |
| `Jobs.Step` | shell.c:208-735 | one pass of the main loop on an input line (the caller `JobControl.Shell.Execute` runs it only while `foreground` is false): the builtins first, then the background test, the foreground launch and the ceiling message; properties in `JobFacts` and `TableInvariant.StepKeepsInv` |
| `Jobs.Inv` | shell.c:88-99 | the table invariant: slots from `job_index` on are free, ids are below `job_counter`, ids grow along the table (strictly while `job_index` is below 56); preserved by every step in module `TableInvariant` |
| `Scans.IntScanIs` | shell.c:52-59 | the `sigint_handler` scan ends with the last entry of the pid as delete index, `max_jobs` lowered by the number of its entries, and one SIGINT per entry |
| `Scans.GuardedDecrementStep` | shell.c:151-153 | one more match applies one more guarded decrement |
| `Scans.GoneScanIs` | shell.c:146-155 | the marking scan ends with the last entry of the pid as delete index (the incoming one when none) and one guarded decrement per entry |
| `Scans.FgScanIs` | shell.c:495-512 | the `fg` scan ends with the last match's pid in `foreground_pid`, `foreground` raised when a match was in the background or stopped, and one SIGCONT per stopped match |
| `Scans.BgScanIs` | shell.c:540-555 | the `bg` scan ends with the last resumed entry's pid in `foreground_pid` and `foreground` cleared when there is one, and one `setpgid` per match plus a SIGCONT per resumed one |
| `JobControl.Shell.constructor` | shell.c:15-43 | the globals start zeroed, with `job_counter` at 1 |
| `JobControl.Shell.Interrupt` | shell.c:45-76 | `sigint_handler` leaves the state `Jobs.Interrupt` describes |
| `JobControl.Shell.SignalEach` | shell.c:52-59 | the scan returns the last entry of the pid, lowers `max_jobs` by its entry count and sends one SIGINT per entry |
| `JobControl.Shell.Stop` | shell.c:78-122 | `sigtstp_handler` leaves the state `Jobs.Stop` describes |
| `JobControl.Shell.SuspendEach` | shell.c:105-114 | every entry of the pid is marked stopped, not terminated and shown, with one SIGTSTP each; nothing else changes |
| `JobControl.Shell.RemovePid` | shell.c:146-162 | marking and then shifting out at the delete index leave the state and index `Jobs.Remove` describes |
| `JobControl.Shell.MarkGone` | shell.c:146-155 | every entry of the pid is marked terminated and hidden, `max_jobs` takes one guarded decrement per entry, and the delete index moves to the last entry |
| `JobControl.Shell.MarkAt` | shell.c:147-154 | one pass of the marking loop changes entry i only, as one step of the fold says |
| `JobControl.Shell.ChildStatus` | shell.c:124-197 | the reap loop over the reported events, with one delete index for the whole loop, leaves the state `Jobs.ChildStatus` describes |
| `JobControl.Shell.ListJobs` | shell.c:398-410 | `jobs` appends `Listing` of the table to the output |
| `JobControl.Shell.Quit` | shell.c:557-563 | `quit` sends SIGKILL to the pid of every slot, used or not |
| `JobControl.Shell.FindJobPid` | shell.c:419-426 | `kill %N` finds the pid of the last entry with id N, 0 when none |
| `JobControl.Shell.ResolveBare` | shell.c:429-437 | the bare-number scan yields the `BareTarget` and reports whether it stopped at an entry with that id |
| `JobControl.Shell.CheckBare` | shell.c:427-444 | the bare-number check prints its notes and, with no target, the error message, as `BareCheck` says |
| `JobControl.Shell.Kill` | shell.c:412-466 | `kill` leaves the state `KillCommand` describes |
| `JobControl.Shell.Front` | shell.c:494-512 | every entry whose pid or id is n becomes foreground and running; `foreground_pid`, `foreground` and the SIGCONTs are as `FgScanIs` states |
| `JobControl.Shell.FrontAt` | shell.c:496-511 | one pass of the `fg` loop changes entry i only, as one step of the fold says |
| `JobControl.Shell.Back` | shell.c:539-555 | only matches in the foreground and stopped are changed, to background and running; `foreground_pid`, `foreground` and the effects are as `BgScanIs` states |
| `JobControl.Shell.BackAt` | shell.c:541-554 | one pass of the `bg` loop changes entry i only, as one step of the fold says |
| `JobControl.Shell.Fg` | shell.c:468-512 | `fg` leaves the state `FgCommand` describes |
| `JobControl.Shell.Bg` | shell.c:513-556 | `bg` leaves the state `BgCommand` describes |
| `JobControl.Shell.LaunchBackground` | shell.c:564-608 | the parent of a background launch appends the new job and logs the child's `setpgid` and its exec of the unchanged arguments |
| `JobControl.Shell.LaunchForeground` | shell.c:609-729 | the parent of a foreground launch makes the child the foreground process and logs its exec with the shifted argv and redirection |
| `JobControl.Shell.Execute` | shell.c:208-735 | one pass of the main loop on an input line leaves the state, and the decision to quit, that `Jobs.Step` describes |
| `JobFacts.ListingAppend` | shell.c:398-410 | the listing of two table pieces is the two listings one after the other |
| `JobFacts.Shown` | shell.c:401 | every entry kept by the front-to-back filter is not terminated and is shown |
| `JobFacts.ListingIsShownEntries` | shell.c:398-410 | `jobs` prints exactly the entries that are not terminated and shown, in table order, each as `[id] (pid) Running  command` or `Stopped  ` |
| `JobFacts.ListingOfOne` | shell.c:401-409 | one entry prints its line exactly when it is not terminated and shown, which is what the front-to-back filter keeps of it |
| `JobFacts.ListingOfFree` | shell.c:401 | free slots print nothing |
| `JobFacts.ListingOfFirstFree` | shell.c:398-410 | a listed job written into the first of the trailing free slots adds its line at the end of the listing |
| `JobFacts.BackgroundLaunchListed` | shell.c:589-603 | after a background launch, `jobs` prints what it printed before plus the new job's line |
| `JobFacts.SignalsNoExec` | shell.c:57 | a signalling scan logs no exec |
| `JobFacts.BgEffectsNoExec` | shell.c:543-551 | the `bg` scan logs no exec |
| `JobFacts.CommandsNoExec` | shell.c:412-556 | `kill`, `fg` and `bg` only append signals, waits and process-group moves |
| `JobFacts.BuiltinLineAdmissible` | shell.c:277-564 | a builtin line is handled as the builtin whatever `job_index` is, a trailing `&` included: only `kill`, `fg` and `bg` require an argument |
| `JobFacts.ExecOnlyBelowCeiling` | shell.c:564-609 | a step that logs an exec started with `max_jobs` below 5 |
| `JobFacts.CeilingRefusesLaunch` | shell.c:730-733 | at or above the ceiling an external command prints the ceiling message and changes nothing else |
| `JobFacts.BackgroundLaunchWritesOneJob` | shell.c:564-603 | below the ceiling a background command writes exactly the new job at `job_index` (id `job_counter`, running, background, shown), raises `job_counter`, `job_index` and `max_jobs` by one, and logs exactly the child's `setpgid` into its own group and its exec of the unchanged arguments |
| `JobFacts.ForegroundLaunchAddsNoJob` | shell.c:609-729 | a foreground launch leaves the table, `job_index` and `max_jobs`, makes the new pid the foreground process, and logs exactly the child's exec with the argv and redirection of the scan |
| `JobFacts.RemovedKeepsOrder` | shell.c:157-162 | the delete keeps the entries before the index, moves the later ones one slot down in their order, and leaves the last one twice |
| `JobFacts.RemoveKeepsMaxJobs` | shell.c:151-153 | the removal code never makes `max_jobs` negative and never raises it |
| `JobFacts.ReapKeepsMaxJobs` | shell.c:136-196 | the reap loop never makes `max_jobs` negative and never raises it |
| `JobFacts.KillKeepsMaxJobs` | shell.c:450-459 | `kill` never makes `max_jobs` negative and never raises it |
| `JobFacts.RemoveHidesPid` | shell.c:146-162 | after a removal no entry of the pid is shown |
| `JobFacts.StaleIndexDropsEntry` | shell.c:131-183 | a reaped pid with no entry still deletes at the delete index left by an earlier child |
| `JobFacts.StopSuspends` | shell.c:83-114 | after the stop handler every entry of the foreground pid is stopped, not terminated and shown, an entry the table already held changes only in those three flags, and the other entries are as before; a new entry with the old `job_counter` is appended exactly when `builtin` is false |
| `JobFacts.FgMarksMatches` | shell.c:495-512 | `fg n` makes every entry with pid or id n foreground and running, leaves the others, and sets `foreground_pid` to the last match's pid, leaving it as it was when nothing matches |
| `JobFacts.BgResumesStoppedForeground` | shell.c:540-555 | `bg n` changes a matching entry only when it is foreground and stopped, and then makes it background and running; with no such entry, `foreground_pid` and `foreground` stay |
| `JobFacts.BareTargetFound` | shell.c:429-437 | a bare number is taken as target exactly when an entry before the first entry with that id has it as pid |
| `JobFacts.UnknownBareLeavesTable` | shell.c:438-444 | when the bare check finds no target, `kill`, `fg` and `bg` only print the notes and the error message |
| `JobFacts.SignalsEvery` | shell.c:560-562 | a scan selecting every entry sends the signal to each slot's pid, one per slot, in table order |
| `JobFacts.QuitKillsEverySlot` | shell.c:557-563 | `quit` appends one SIGKILL per slot, to that slot's pid, in table order, free slots included, and changes nothing else but `builtin` |
| `TableInvariant.InitialInv` | shell.c:15-43 | the zeroed globals satisfy the table invariant |
| `TableInvariant.IdsUnique` | shell.c:88-99 | while `job_index` is below 56, no two entries share a non-zero id |
| `TableInvariant.MarkKeepsInv` | shell.c:106-113 | a marking scan keeps the invariant when it shows no free slot |
| `TableInvariant.RemovedKeepsInv` | shell.c:62-67 | the shift-left delete keeps the invariant |
| `TableInvariant.AppendedKeepsInv` | shell.c:96-99 | writing job `job_counter` at `job_index` keeps the invariant |
| `TableInvariant.InterruptKeepsInv` | shell.c:45-76 | `sigint_handler` keeps the invariant |
| `TableInvariant.StopKeepsInv` | shell.c:78-122 | `sigtstp_handler` keeps the invariant |
| `TableInvariant.RemoveKeepsInv` | shell.c:146-162 | the removal code keeps the invariant |
| `TableInvariant.ReapKeepsInv` | shell.c:136-196 | the reap loop keeps the invariant |
| `TableInvariant.ChildStatusKeepsInv` | shell.c:124-197 | `sigchld_handler` keeps the invariant |
| `TableInvariant.FgTargetKeepsInv` | shell.c:494-512 | the `fg` scan keeps the invariant |
| `TableInvariant.BgTargetKeepsInv` | shell.c:539-555 | the `bg` scan keeps the invariant |
| `TableInvariant.KillTargetKeepsInv` | shell.c:446-466 | killing and removing a target keeps the invariant |
| `TableInvariant.BareCheckKeepsInv` | shell.c:427-444 | the bare-number check keeps the invariant |
| `TableInvariant.KillKeepsInv` | shell.c:412-466 | `kill` keeps the invariant |
| `TableInvariant.FgKeepsInv` | shell.c:468-512 | `fg` keeps the invariant |
| `TableInvariant.BgKeepsInv` | shell.c:513-556 | `bg` keeps the invariant |
| `TableInvariant.LaunchBackgroundKeepsInv` | shell.c:584-603 | a background launch keeps the invariant |
| `TableInvariant.StepTable` | shell.c:277-735 | a pass of the main loop leaves the table, `job_index` and `job_counter` alone, or runs one of `kill`/`fg`/`bg`, or launches in the background |
| `TableInvariant.StepKeepsInv` | shell.c:208-735 | every pass of the main loop keeps the invariant |

## Left out

- Process semantics of `fork`, `execvp`/`execv`, `setpgid`, `kill` and `waitpid`: these are foreign system calls. They are parameters and an effect log, as described above.
- `exit(1)` on a fork failure or when a redirection file cannot be opened: it ends the process, so no state is left to verify. A launch's `pid` is taken to be the parent's successful return.
- The failure of `execvp`/`execv` in a child: it happens in the child's own process and does not touch the parent's table.
- The redirection plumbing (`open`, `dup`, `dup2`, `close`) for `pwd`, `jobs` and foreground children: filesystem I/O. The output log does not say whether the `jobs` lines went to the terminal or to a file.
- `cd` and `pwd` beyond setting `builtin`: `chdir` and `getcwd` are filesystem calls.
- Prompt printing, `fflush` and `fgets`: terminal I/O.
  - A line is an input of `JobControl.Shell.Execute`.
  - `Execute` requires `foreground` to be false, because the busy-wait `if (foreground) continue;` reads no line.
  - The 80-byte limit of `fgets` is not modelled: a line of any length is accepted.
- The `child_processes` array: it is written but never read.
- Asynchronous preemption of the main loop by a handler in the middle of a statement: this is concurrency. Each handler is one atomic step between main-loop passes.
- The race between `kill`'s blocking `waitpid` and `sigchld_handler` reaping the same child: concurrency.
- What `kill(0, SIGKILL)` does to the shell's own process group: process semantics. The model logs the signal to pid 0 and runs the table update as written.
- Overflow of `atoi` and of the `int` counters: integers are unbounded here. No reachable table operation comes near the 32-bit range.
- C's character signedness and multi-byte text: characters are Dafny `char`s, and `%N` subtracts the code of `'0'` from the character's code.
- The slot past the end of the argument vector, which the redirection scan reads when an operator is the last token: it is uninitialised in C and is modelled as the distinct value `Unnamed`.
- `file2` is computed by the scan but no code path reads it. It is modelled in the scan's outcome only.
- The per-entry loop bodies of the `fg`, `bg` and removal scans are helper methods (`FrontAt`, `BackAt`, `MarkAt`). They write the array entry once per iteration instead of once per field. The order of writes within one entry is not observable without preemption.
