/** How the shell's main loop turns an input line into the argument vector:
    newline stripping, the `strtok` split on blanks and tabs, the scan for
    the redirection operators `>`, `<` and `>>`, the argument-vector shift
    a foreground child performs before `execvp`, and the two number
    readers the job builtins use (`atoi` and the one-character `%N` job id),
    together with the `%i` formatting `jobs` prints with. */
module Parsing {
  import opened Common

  // ---------------------------------------------------------------------
  // Newline stripping (shell.c:228-231)
  // ---------------------------------------------------------------------

  /** Removes one trailing newline, if there is one. */
  function StripNewline(line: string): (r: string)
    ensures line == r || line == r + "\n"
    ensures line == r <==> (|line| == 0 || line[|line| - 1] != '\n')
  {
    if |line| > 0 && line[|line| - 1] == '\n' then line[..|line| - 1] else line
  }

  /** Stripping undoes the newline `fgets` keeps, and only that one. */
  lemma StripNewlineInverse(text: string)
    ensures StripNewline(text + "\n") == text
  {
    assert (text + "\n")[..|text|] == text;
  }

  // ---------------------------------------------------------------------
  // The `strtok(user_str, " \t")` loop (shell.c:236-244)
  // ---------------------------------------------------------------------

  predicate IsDelimiter(c: char) { c == ' ' || c == '\t' }

  /** A token as `strtok` hands it out: non-empty, no blank, no tab. */
  predicate IsToken(t: string) {
    |t| > 0 && forall i :: 0 <= i < |t| ==> !IsDelimiter(t[i])
  }

  /** Length of the run of non-delimiters at the start of `s`. */
  function RunLength(s: string): (n: nat)
    ensures n <= |s|
    ensures forall i :: 0 <= i < n ==> !IsDelimiter(s[i])
    ensures n < |s| ==> IsDelimiter(s[n])
  {
    if s == [] || IsDelimiter(s[0]) then 0 else 1 + RunLength(s[1..])
  }

  /** The tokens `strtok` returns one after another: delimiter runs are
      skipped and each maximal run of other characters is one token. */
  function Tokenize(s: string): (ts: seq<string>)
    ensures forall k :: 0 <= k < |ts| ==> IsToken(ts[k])
    decreases |s|
  {
    if s == [] then []
    else if IsDelimiter(s[0]) then Tokenize(s[1..])
    else
      var n := RunLength(s);
      [s[..n]] + Tokenize(s[n..])
  }

  /** Tokens written out with one blank between neighbours. */
  function Join(ts: seq<string>): string {
    if ts == [] then ""
    else if |ts| == 1 then ts[0]
    else ts[0] + " " + Join(ts[1..])
  }

  /** The characters of `s` that are not delimiters, in order. */
  function NonDelimiters(s: string): string {
    if s == [] then []
    else (if IsDelimiter(s[0]) then [] else [s[0]]) + NonDelimiters(s[1..])
  }

  function Concat(ts: seq<string>): string {
    if ts == [] then "" else ts[0] + Concat(ts[1..])
  }

  lemma {:induction false} RunLengthOfToken(t: string, rest: string)
    requires IsToken(t)
    requires rest == [] || IsDelimiter(rest[0])
    ensures RunLength(t + rest) == |t|
  {
    var s := t + rest;
    assert s[0] == t[0];
    if |t| > 1 {
      assert s[1..] == t[1..] + rest;
      RunLengthOfToken(t[1..], rest);
    } else {
      assert s[1..] == rest;
    }
  }

  /** Splitting the blank-joined tokens gives back exactly those tokens. */
  lemma {:induction false} TokenizeJoin(ts: seq<string>)
    requires forall k :: 0 <= k < |ts| ==> IsToken(ts[k])
    ensures Tokenize(Join(ts)) == ts
  {
    if ts == [] {
    } else if |ts| == 1 {
      RunLengthOfToken(ts[0], "");
      assert ts[0] + "" == ts[0];
      assert ts[0][|ts[0]|..] == [];
    } else {
      var rest := " " + Join(ts[1..]);
      var s := ts[0] + rest;
      assert Join(ts) == s;
      RunLengthOfToken(ts[0], rest);
      assert s[..|ts[0]|] == ts[0];
      assert s[|ts[0]|..] == rest;
      assert rest[1..] == Join(ts[1..]);
      TokenizeJoin(ts[1..]);
      assert Tokenize(rest) == Tokenize(Join(ts[1..]));
      assert ts == [ts[0]] + ts[1..];
    }
  }

  lemma {:induction false} NonDelimitersOfRun(s: string, n: nat)
    requires n <= |s|
    requires forall i :: 0 <= i < n ==> !IsDelimiter(s[i])
    ensures NonDelimiters(s) == s[..n] + NonDelimiters(s[n..])
  {
    if n > 0 {
      NonDelimitersOfRun(s[1..], n - 1);
      assert s[1..][..n - 1] == s[1..n];
      assert s[1..][n - 1..] == s[n..];
      assert s[..n] == [s[0]] + s[1..n];
    }
  }

  /** No character other than a blank or a tab is lost or reordered. */
  lemma {:induction false} TokenizeKeepsText(s: string)
    ensures Concat(Tokenize(s)) == NonDelimiters(s)
    decreases |s|
  {
    if s == [] {
    } else if IsDelimiter(s[0]) {
      TokenizeKeepsText(s[1..]);
    } else {
      var n := RunLength(s);
      NonDelimitersOfRun(s, n);
      TokenizeKeepsText(s[n..]);
      assert Tokenize(s) == [s[..n]] + Tokenize(s[n..]);
      assert ([s[..n]] + Tokenize(s[n..]))[1..] == Tokenize(s[n..]);
    }
  }

  // ---------------------------------------------------------------------
  // The scan for `>`, `<` and `>>` (shell.c:246-270)
  // ---------------------------------------------------------------------

  /** The token after an operator. When the operator is the last token the
      C code reads the slot past the end of the vector, which is not yet
      NUL-terminated at that point: `Unnamed`. `Keep` means the scan did not
      assign the variable at all, so it keeps its earlier value. */
  datatype Target = Keep | Unnamed | Named(name: string)

  /** What the scan leaves in `output_redirect`, `input_redirect`, `append`,
      `file`, `file2` and `file_delete_index`. */
  datatype Redirection = Redirection(
    output: bool, input: bool, append: bool,
    file: Target, file2: Target, deleteIndex: int)

  predicate IsOperator(t: string) { t == ">" || t == "<" || t == ">>" }

  /** An operator that assigns `file2`: a `>` after some `<`, or a `<` after
      some `>`. */
  predicate IsSecondOperator(args: seq<string>, i: nat)
    requires i < |args|
  {
    (args[i] == ">" && "<" in args[..i]) || (args[i] == "<" && ">" in args[..i])
  }

  function Follower(args: seq<string>, i: nat): Target
    requires i < |args|
  {
    if i + 1 < |args| then Named(args[i + 1]) else Unnamed
  }

  /** Index of the last operator, -1 when there is none. */
  function LastOperator(args: seq<string>): (k: int)
    ensures -1 <= k < |args|
    ensures k >= 0 ==> IsOperator(args[k])
    ensures forall i :: k < i < |args| ==> !IsOperator(args[i])
  {
    if args == [] then -1
    else if IsOperator(args[|args| - 1]) then |args| - 1
    else LastOperator(args[..|args| - 1])
  }

  /** Index of the last operator that assigns `file2`, -1 when none. */
  function LastSecondOperator(args: seq<string>): (k: int)
    ensures -1 <= k < |args|
    ensures k >= 0 ==> IsSecondOperator(args, k)
    ensures forall i :: k < i < |args| ==> !IsSecondOperator(args, i)
  {
    if args == [] then -1
    else if IsSecondOperator(args, |args| - 1) then |args| - 1
    else
      var front := args[..|args| - 1];
      var k := LastSecondOperator(front);
      assert forall i :: 0 <= i < |front| ==>
        (IsSecondOperator(front, i) <==> IsSecondOperator(args, i)) by {
        forall i | 0 <= i < |front| ensures front[..i] == args[..i] { }
      }
      k
  }

  /** The scan's outcome, stated by what it finds in the arguments. */
  function Redirections(args: seq<string>): (r: Redirection)
    ensures -1 <= r.deleteIndex < |args|
  {
    var k := LastOperator(args);
    var k2 := LastSecondOperator(args);
    Redirection(">" in args, "<" in args, ">>" in args,
                if k == -1 then Keep else Follower(args, k),
                if k2 == -1 then Keep else Follower(args, k2),
                k)
  }

  /** The outcome stated by what the scan finds in the first n tokens
      (the token after an operator may lie beyond them). */
  function RedirectionsUpTo(args: seq<string>, n: nat): Redirection
    requires n <= |args|
  {
    var k := LastOperator(args[..n]);
    var k2 := LastSecondOperator(args[..n]);
    Redirection(">" in args[..n], "<" in args[..n], ">>" in args[..n],
                if k == -1 then Keep else Follower(args, k),
                if k2 == -1 then Keep else Follower(args, k2),
                k)
  }

  /** One pass of the scan loop, over token i. */
  function RedirectionStep(args: seq<string>, i: nat, r: Redirection): Redirection
    requires i < |args|
  {
    var r1 :=
      if args[i] == ">" then
        r.(output := true, file2 := if r.input then Follower(args, i) else r.file2,
           file := Follower(args, i), deleteIndex := i)
      else r;
    var r2 :=
      if args[i] == "<" then
        r1.(input := true, file2 := if r1.output then Follower(args, i) else r1.file2,
            file := Follower(args, i), deleteIndex := i)
      else r1;
    if args[i] == ">>" then r2.(append := true, file := Follower(args, i), deleteIndex := i)
    else r2
  }

  /** The scan loop run over the first n tokens. */
  function ScanUpTo(args: seq<string>, n: nat): Redirection
    requires n <= |args|
  {
    if n == 0 then Redirection(false, false, false, Keep, Keep, -1)
    else RedirectionStep(args, n - 1, ScanUpTo(args, n - 1))
  }

  /** One more token of the prefix: the last operator. */
  lemma LastOperatorStep(args: seq<string>, i: nat)
    requires i < |args|
    ensures LastOperator(args[..i + 1])
         == if IsOperator(args[i]) then i else LastOperator(args[..i])
  {
    assert args[..i + 1][..i] == args[..i];
  }

  /** One more token of the prefix: the last operator that assigns
      `file2`, decided by what the earlier tokens contain. */
  lemma LastSecondOperatorStep(args: seq<string>, i: nat)
    requires i < |args|
    ensures LastSecondOperator(args[..i + 1])
         == if (args[i] == ">" && "<" in args[..i]) || (args[i] == "<" && ">" in args[..i])
            then i else LastSecondOperator(args[..i])
  {
    var prefix := args[..i + 1];
    assert prefix[..i] == args[..i];
    var k2 := LastSecondOperator(args[..i]);
    assert k2 >= 0 ==> IsSecondOperator(prefix, k2) by {
      if k2 >= 0 {
        assert prefix[..k2] == args[..i][..k2];
      }
    }
  }

  /** One more token of the prefix: membership. */
  lemma InStep(args: seq<string>, i: nat, t: string)
    requires i < |args|
    ensures t in args[..i + 1] <==> t in args[..i] || args[i] == t
  {
    assert args[..i + 1] == args[..i] + [args[i]];
  }

  /** Running the loop over n tokens leaves what those tokens call for. */
  lemma {:induction false} ScanUpToIs(args: seq<string>, n: nat)
    requires n <= |args|
    ensures ScanUpTo(args, n) == RedirectionsUpTo(args, n)
  {
    if n > 0 {
      var i := n - 1;
      ScanUpToIs(args, i);
      LastOperatorStep(args, i);
      LastSecondOperatorStep(args, i);
      InStep(args, i, ">");
      InStep(args, i, "<");
      InStep(args, i, ">>");
    }
  }

  /** The scan loop itself, one token at a time. */
  method ScanRedirections(args: seq<string>) returns (r: Redirection)
    ensures r == Redirections(args)
  {
    var output, input, append := false, false, false;
    var file, file2 := Keep, Keep;
    var deleteIndex := -1;
    var i := 0;
    while i < |args|
      invariant 0 <= i <= |args|
      invariant Redirection(output, input, append, file, file2, deleteIndex) == ScanUpTo(args, i)
    {
      if args[i] == ">" {
        output := true;
        if input {
          file2 := Follower(args, i);
        }
        file := Follower(args, i);
        deleteIndex := i;
      }
      if args[i] == "<" {
        input := true;
        if output {
          file2 := Follower(args, i);
        }
        file := Follower(args, i);
        deleteIndex := i;
      }
      if args[i] == ">>" {
        append := true;
        file := Follower(args, i);
        deleteIndex := i;
      }
      i := i + 1;
    }
    r := Redirection(output, input, append, file, file2, deleteIndex);
    ScanUpToIs(args, |args|);
    assert args[..|args|] == args;
  }

  // ---------------------------------------------------------------------
  // The child's argument vector (shell.c:632-636, 663-667, 696-700)
  // ---------------------------------------------------------------------

  /** The strings of a vector, as non-NULL entries. */
  function NonNull(args: seq<string>): (v: seq<Option<string>>)
    ensures |v| == |args|
    ensures forall i :: 0 <= i < |args| ==> v[i] == Some(args[i])
  {
    seq(|args|, i requires 0 <= i < |args| => Some(args[i]))
  }

  /** The C vector `args[0..argc]` with its NULL terminator. */
  function Terminated(args: seq<string>): (v: seq<Option<string>>)
    ensures |v| == |args| + 1
  {
    NonNull(args) + [None]
  }

  /** What `execvp` reads: the strings before the first NULL. */
  function UntilNull(v: seq<Option<string>>): seq<string> {
    if v == [] || v[0].None? then [] else [v[0].value] + UntilNull(v[1..])
  }

  /** How the redirection reaches the child's standard streams. The branch
      order of the C code decides: output first, then append, then input. */
  datatype Redirect = Inherit | Truncate(file: Target) | AppendTo(file: Target) | ReadFrom(file: Target)

  function RedirectOf(r: Redirection): Redirect {
    if r.output then Truncate(r.file)
    else if r.append then AppendTo(r.file)
    else if r.input then ReadFrom(r.file)
    else Inherit
  }

  /** The vector a foreground child passes to `execvp`. The output and
      append branches shift `args[i] = args[i+1]` for i < argc-1, the input
      branch for i < argc (which also moves the NULL). Only the operator
      token is shifted out; its file name stays. Only the plain branch,
      with no redirection, resets SIGTSTP to its default (shell.c:715). */
  function ShiftedArgv(args: seq<string>, r: Redirection): seq<string>
    requires -1 <= r.deleteIndex < |args|
  {
    var k := r.deleteIndex;
    if r.output || r.append then
      (if k != -1 then UntilNull(ShiftedLeft(Terminated(args), k, |args| - 1)) else args)
    else if r.input then
      (if k != -1 then UntilNull(ShiftedLeft(Terminated(args), k, |args|)) else args)
    else args
  }

  function ChildArgv(args: seq<string>): seq<string> {
    ShiftedArgv(args, Redirections(args))
  }

  lemma {:induction false} UntilNullOfNonNull(args: seq<string>, rest: seq<Option<string>>)
    ensures UntilNull(NonNull(args) + [None] + rest) == args
  {
    var v := NonNull(args) + [None] + rest;
    if args != [] {
      assert v[0] == Some(args[0]);
      assert v[1..] == NonNull(args[1..]) + [None] + rest;
      UntilNullOfNonNull(args[1..], rest);
      assert args == [args[0]] + args[1..];
    } else {
      assert v[0] == None;
    }
  }

  /** The input branch's shift, which runs up to argc: the operator is
      gone and the NULL moves one slot left. */
  lemma InputShiftedVector(args: seq<string>, k: nat)
    requires k < |args|
    ensures ShiftedLeft(Terminated(args), k, |args|)
              == NonNull(args[..k] + args[k + 1..]) + [None, None]
  {
    var lhs := ShiftedLeft(Terminated(args), k, |args|);
    var rhs := NonNull(args[..k] + args[k + 1..]) + [None, None];
    forall i | 0 <= i < |lhs| ensures lhs[i] == rhs[i] {
      ShiftedLeftAt(Terminated(args), k, |args|, i);
    }
  }

  /** The output and append branches' shift, which stops at argc - 1: the
      operator is gone and the last argument appears twice. */
  lemma OutputShiftedVector(args: seq<string>, k: nat)
    requires k < |args|
    ensures ShiftedLeft(Terminated(args), k, |args| - 1)
              == NonNull(args[..k] + args[k + 1..]) + [Some(args[|args| - 1]), None]
  {
    var lhs := ShiftedLeft(Terminated(args), k, |args| - 1);
    var rhs := NonNull(args[..k] + args[k + 1..]) + [Some(args[|args| - 1]), None];
    forall i | 0 <= i < |lhs| ensures lhs[i] == rhs[i] {
      ShiftedLeftAt(Terminated(args), k, |args| - 1, i);
    }
  }

  /** With only `<` present the child sees the arguments minus the `<`
      token: the file name stays an argument. */
  lemma InputArgvDropsOperator(args: seq<string>)
    requires var r := Redirections(args); r.input && !r.output && !r.append
    ensures var k := Redirections(args).deleteIndex;
            0 <= k < |args| && args[k] == "<" &&
            ChildArgv(args) == args[..k] + args[k + 1..]
  {
    var k := Redirections(args).deleteIndex;
    assert "<" in args;
    var j :| 0 <= j < |args| && args[j] == "<";
    assert args[k] == "<";
    InputShiftedVector(args, k);
    var w := args[..k] + args[k + 1..];
    assert NonNull(w) + [None, None] == NonNull(w) + [None] + [None];
    UntilNullOfNonNull(w, [None]);
  }

  /** With `>` or `>>` the child sees the arguments minus the operator
      token, with the last argument repeated when the operator is not last. */
  lemma OutputArgvRepeatsLast(args: seq<string>)
    requires var r := Redirections(args); r.output || r.append
    ensures var k := Redirections(args).deleteIndex;
            0 <= k < |args| && IsOperator(args[k]) &&
            ChildArgv(args) == if k == |args| - 1 then args
                               else args[..k] + args[k + 1..] + [args[|args| - 1]]
  {
    var k := Redirections(args).deleteIndex;
    var j :| 0 <= j < |args| && (args[j] == ">" || args[j] == ">>");
    OutputShiftedVector(args, k);
    var w := args[..k] + args[k + 1..] + [args[|args| - 1]];
    assert NonNull(args[..k] + args[k + 1..]) + [Some(args[|args| - 1]), None]
           == NonNull(w) + [None] + [];
    UntilNullOfNonNull(w, []);
    if k == |args| - 1 {
      assert w == args;
    }
  }

  // ---------------------------------------------------------------------
  // Numbers: `atoi`, the `%i` conversion and `args[1][1] - '0'`
  // ---------------------------------------------------------------------

  predicate IsSpace(c: char) {
    c == ' ' || c == '\t' || c == '\n' || c == '\U{B}' || c == '\U{C}' || c == '\r'
  }

  predicate IsDigit(c: char) { '0' <= c <= '9' }

  function DigitValue(c: char): nat
    requires IsDigit(c)
  {
    (c as int) - ('0' as int)
  }

  function DigitChar(d: nat): (c: char)
    requires d < 10
    ensures IsDigit(c) && DigitValue(c) == d
  {
    ('0' as int + d) as char
  }

  /** Length of the run of digits at the start of `s`. */
  function DigitRun(s: string): (n: nat)
    ensures n <= |s|
    ensures forall i :: 0 <= i < n ==> IsDigit(s[i])
    ensures n < |s| ==> !IsDigit(s[n])
  {
    if s == [] || !IsDigit(s[0]) then 0 else 1 + DigitRun(s[1..])
  }

  /** Decimal value of a string of digits. */
  function Value(d: string): nat
    requires forall i :: 0 <= i < |d| ==> IsDigit(d[i])
  {
    if d == [] then 0 else 10 * Value(d[..|d| - 1]) + DigitValue(d[|d| - 1])
  }

  function SkipSpaces(s: string): (r: string)
    ensures |r| <= |s|
    ensures r == [] || !IsSpace(r[0])
  {
    if s != [] && IsSpace(s[0]) then SkipSpaces(s[1..]) else s
  }

  function Unsigned(s: string): nat {
    Value(s[..DigitRun(s)])
  }

  /** C's `atoi`: leading white space, an optional sign, then as many
      digits as there are; 0 when there are none. */
  function Atoi(s: string): int {
    var t := SkipSpaces(s);
    if t != [] && t[0] == '-' then -(Unsigned(t[1..]) as int)
    else if t != [] && t[0] == '+' then Unsigned(t[1..])
    else Unsigned(t)
  }

  /** Decimal digits of a natural number, as `%i` prints them. */
  function NatToString(n: nat): (s: string)
    ensures |s| > 0 && forall i :: 0 <= i < |s| ==> IsDigit(s[i])
  {
    if n < 10 then [DigitChar(n)] else NatToString(n / 10) + [DigitChar(n % 10)]
  }

  /** `printf("%i", n)`. */
  function IntToString(n: int): string {
    if n < 0 then "-" + NatToString(-n) else NatToString(n)
  }

  lemma {:induction false} ValueOfNatToString(n: nat)
    ensures Value(NatToString(n)) == n
  {
    if n >= 10 {
      var s := NatToString(n);
      assert s[..|s| - 1] == NatToString(n / 10);
      ValueOfNatToString(n / 10);
    }
  }

  lemma DigitRunOfDigits(d: string)
    requires forall i :: 0 <= i < |d| ==> IsDigit(d[i])
    ensures DigitRun(d) == |d|
  {
    if d != [] {
      DigitRunOfDigits(d[1..]);
    }
  }

  /** `atoi` reads back every number `%i` prints. */
  lemma AtoiReadsIntToString(n: int)
    ensures Atoi(IntToString(n)) == n
  {
    var m := if n < 0 then -n else n;
    var d := NatToString(m);
    DigitRunOfDigits(d);
    ValueOfNatToString(m);
    assert d[..|d|] == d;
    assert !IsSpace(d[0]);
    if n < 0 {
      var s := "-" + d;
      assert !IsSpace(s[0]);
      assert SkipSpaces(s) == s;
      assert s[1..] == d;
    } else {
      assert SkipSpaces(d) == d;
      assert d[0] != '-' && d[0] != '+';
    }
  }

  /** `args[1][1] - '0'`: the character after `%` minus the code of '0'.
      For the argument "%" that character is the terminating NUL. */
  function JobDigit(arg: string): int {
    if |arg| >= 2 then (arg[1] as int) - ('0' as int) else 0 - ('0' as int)
  }

  /** The first decimal digit of a natural number. */
  function LeadingDigit(n: nat): (d: nat)
    ensures d < 10
    ensures n >= 10 ==> d < n
  {
    if n < 10 then n else LeadingDigit(n / 10)
  }

  lemma {:induction false} NatToStringStartsWithLeadingDigit(n: nat)
    ensures NatToString(n)[0] == DigitChar(LeadingDigit(n))
  {
    if n >= 10 {
      NatToStringStartsWithLeadingDigit(n / 10);
    }
  }

  /** `%N` is read one character long: the job ids 0 to 9 come through,
      any longer id comes through as its first digit only. */
  lemma JobDigitReadsOneDigit(id: nat)
    ensures JobDigit("%" + NatToString(id)) == LeadingDigit(id)
    ensures id < 10 <==> JobDigit("%" + NatToString(id)) == id
  {
    NatToStringStartsWithLeadingDigit(id);
    assert ("%" + NatToString(id))[1] == NatToString(id)[0];
  }
}
