/**
  * The running shell: its working directory, the handlers of the builtin
  * table, bls_execute_command's search over that table, and the bls_loop
  * driver that reads, parses and executes lines until a command returns 0.
  */
module Repl {
  import opened Wrappers
  import opened Tokenizer
  import opened Parser
  import opened Builtins

  /** A vector a consumer can read: a NULL appears somewhere in it. */
  predicate NullTerminated(v: seq<Option<string>>) {
    |ArgList(v)| < |v|
  }

  /** Why bls_loop stopped: a command returned 0, or input ran out (where
      bls_read_line ends the process). */
  datatype LoopEnd = ExitCommand | EndOfInput

  /** How many lines bls_loop consumed, why it stopped, and the directory it
      left the shell in. */
  datatype RunResult = RunResult(consumed: nat, end: LoopEnd, cwd: Path)

  /** A line whose command is exit. */
  predicate IsExitLine(line: string) {
    var args := Tokens(CString(line));
    |args| > 0 && args[0] == "exit"
  }

  /** A line that asks cd for a directory. */
  predicate IsCdLine(line: string) {
    var args := Tokens(CString(line));
    |args| >= 2 && args[0] == "cd"
  }

  /** bls_loop on values: each line is parsed and dispatched in turn, and the
      loop ends after the first line whose command returns 0, which is exactly
      the first exit line; without one, all input is consumed. */
  function Run(lines: seq<string>, cwd: Path, chdir: Chdir): (r: RunResult)
    ensures r.consumed <= |lines|
    ensures r.end == ExitCommand ==>
              0 < r.consumed && IsExitLine(lines[r.consumed - 1])
              && forall k | 0 <= k < r.consumed - 1 :: !IsExitLine(lines[k])
    ensures r.end == EndOfInput ==>
              r.consumed == |lines| && forall k | 0 <= k < |lines| :: !IsExitLine(lines[k])
    decreases |lines|
  {
    if lines == [] then RunResult(0, EndOfInput, cwd)
    else
      var o := Dispatch(Tokens(CString(lines[0])), cwd, chdir);
      if o.status == 0 then RunResult(1, ExitCommand, o.cwd)
      else
        var r := Run(lines[1..], o.cwd, chdir);
        RunResult(r.consumed + 1, r.end, r.cwd)
  }

  /** One turn of bls_loop: the first line is dispatched, and the loop stops
      there or goes on with the rest of the input from the directory the line
      left the shell in. */
  lemma RunCons(lines: seq<string>, cwd: Path, chdir: Chdir)
    requires lines != []
    ensures var o := Dispatch(Tokens(CString(lines[0])), cwd, chdir);
            var r := Run(lines[1..], o.cwd, chdir);
            Run(lines, cwd, chdir)
            == if o.status == 0 then RunResult(1, ExitCommand, o.cwd) else RunResult(r.consumed + 1, r.end, r.cwd)
  {
  }

  /** The loop runs input in pieces: when a first part holds no exit line,
      the run of the whole input is that part's run followed by the run of the
      rest, from the directory the first part left the shell in. */
  lemma {:induction false} RunAppend(lines: seq<string>, more: seq<string>, cwd: Path, chdir: Chdir)
    requires Run(lines, cwd, chdir).end == EndOfInput
    ensures var a := Run(lines, cwd, chdir);
            var b := Run(more, a.cwd, chdir);
            Run(lines + more, cwd, chdir) == RunResult(|lines| + b.consumed, b.end, b.cwd)
    decreases |lines|
  {
    if lines == [] {
      assert lines + more == more;
    } else {
      assert (lines + more)[0] == lines[0];
      var o := Dispatch(Tokens(CString(lines[0])), cwd, chdir);
      assert (lines + more)[1..] == lines[1..] + more;
      RunAppend(lines[1..], more, o.cwd, chdir);
    }
  }

  /** Only lines that ask cd for a directory can move the shell. */
  lemma {:induction false} RunKeepsCwd(lines: seq<string>, cwd: Path, chdir: Chdir)
    requires forall k | 0 <= k < |lines| :: !IsCdLine(lines[k])
    ensures Run(lines, cwd, chdir).cwd == cwd
    decreases |lines|
  {
    if lines != [] {
      var o := Dispatch(Tokens(CString(lines[0])), cwd, chdir);
      assert !IsCdLine(lines[0]);
      if o.status != 0 {
        RunKeepsCwd(lines[1..], cwd, chdir);
      }
    }
  }

  /** Lines after the first exit line are never read. */
  lemma {:induction false} RunIgnoresRest(lines: seq<string>, more: seq<string>, cwd: Path, chdir: Chdir)
    requires Run(lines, cwd, chdir).end == ExitCommand
    ensures Run(lines + more, cwd, chdir) == Run(lines, cwd, chdir)
    decreases |lines|
  {
    assert (lines + more)[0] == lines[0];
    var o := Dispatch(Tokens(CString(lines[0])), cwd, chdir);
    if o.status != 0 {
      assert (lines + more)[1..] == lines[1..] + more;
      RunIgnoresRest(lines[1..], more, o.cwd, chdir);
    }
  }

  /** The state bls_loop works on: the process's working directory, and the
      chdir call that moves it. */
  class Shell {
    var cwd: Path
    const chdir: Chdir

    constructor (cwd0: Path, chdir0: Chdir)
      ensures cwd == cwd0 && chdir == chdir0
    {
      cwd := cwd0;
      chdir := chdir0;
    }

    /** bls_cd: with a directory in args[1], ask chdir for it and move there on
        success; report and stay put on failure or without an argument. */
    method Cd(args: array<Option<string>>) returns (status: int)
      requires NullTerminated(args[..]) && args[0].Some?
      modifies this`cwd
      ensures var e := Handle(Builtin.Cd, ArgList(args[..]), old(cwd), chdir);
              status == e.status && cwd == e.cwd
    {
      ghost var argv := ArgList(args[..]);
      if args[1].None? {
        assert |argv| < 2;
      } else {
        assert |argv| >= 2 && argv[1] == args[1].value;
        var dir := chdir(cwd, args[1].value);
        if dir.Some? {
          cwd := dir.value;
        }
      }
      status := 1;
    }

    /** bls_exit: the status that ends the loop. */
    method Exit(args: array<Option<string>>) returns (status: int)
      ensures status == Handle(Builtin.Exit, ArgList(args[..]), cwd, chdir).status
    {
      status := 0;
    }

    /** bls_help: the builtin names go to the terminal; the loop goes on. */
    method Help(args: array<Option<string>>) returns (status: int)
      ensures status == Handle(Builtin.Help, ArgList(args[..]), cwd, chdir).status
    {
      status := 1;
    }

    /** bls_launch_command: the program runs in a child process the parent
        waits for, and the parent returns 1 however that goes. */
    method Launch(args: array<Option<string>>) returns (status: int)
      requires NullTerminated(args[..]) && args[0].Some?
      ensures status == LaunchStatus(ArgList(args[..]))
    {
      status := 1;
    }

    /** bls_execute_command: an empty command returns 1; otherwise the table
        is searched in order and the first builtin whose name equals args[0]
        handles the command; if none does, the command is launched. */
    method ExecuteCommand(args: array<Option<string>>) returns (status: int)
      requires NullTerminated(args[..])
      modifies this`cwd
      ensures var o := Dispatch(ArgList(args[..]), old(cwd), chdir);
              status == o.status && cwd == o.cwd
    {
      ghost var argv := ArgList(args[..]);
      if args[0].None? {
        assert argv == [];
        return 1;
      }
      assert argv[0] == args[0].value;
      var name := args[0].value;
      var i := 0;
      while i < BuiltinFuncsSize()
        invariant 0 <= i <= |BuiltinNames|
        invariant LookupFrom(name, i) == Lookup(name)
        invariant cwd == old(cwd)
      {
        if name == BuiltinNames[i] {
          match BuiltinFuncs[i] {
            case Cd => status := Cd(args);
            case Exit => status := Exit(args);
            case Help => status := Help(args);
          }
          return;
        }
        i := i + 1;
      }
      status := Launch(args);
    }

    /** bls_read_line: a fresh buffer holding the next line of input. */
    static method ReadLine(input: seq<string>, next: nat) returns (line: array<char>)
      requires next < |input|
      ensures fresh(line) && line[..] == input[next]
    {
      var text := input[next];
      line := new char[|text|](k requires 0 <= k < |text| => text[k]);
    }

    /** bls_loop: read a line, parse it, execute it, and go round again while
        the status is not 0. The lines are the terminal's input in order;
        running out of them is where bls_read_line ends the process. */
    method Loop(input: seq<string>) returns (consumed: nat, end: LoopEnd)
      modifies this`cwd
      ensures var r := Run(input, old(cwd), chdir);
              consumed == r.consumed && end == r.end && cwd == r.cwd
    {
      consumed := 0;
      var status := 1;
      while status != 0
        invariant consumed <= |input|
        invariant status != 0 ==>
                    var r := Run(input[consumed..], cwd, chdir);
                    Run(input, old(cwd), chdir) == RunResult(consumed + r.consumed, r.end, r.cwd)
        invariant status == 0 ==> Run(input, old(cwd), chdir) == RunResult(consumed, ExitCommand, cwd)
        decreases |input| - consumed
      {
        if consumed == |input| {
          return consumed, EndOfInput;
        }
        var line := ReadLine(input, consumed);
        var args, starts := ParseLine(line);
        RunCons(input[consumed..], cwd, chdir);
        assert input[consumed..][1..] == input[consumed + 1..];
        status := ExecuteCommand(args);
        consumed := consumed + 1;
      }
      end := ExitCommand;
    }
  }
}
