/**
  * The builtin registry and the dispatcher of the shell, on values: the table
  * of builtin names and handlers, the first-match lookup that
  * bls_execute_command performs over it, and what each handler returns and
  * does to the working directory.
  */
module Builtins {
  import opened Wrappers

  /** A directory path, as chdir takes it. */
  type Path = string

  /** The chdir system call as an oracle: given the current directory and the
      requested one, the new directory, or None when chdir fails. */
  type Chdir = (Path, string) -> Option<Path>

  /** The handlers of the builtin table, in the order of funcs[]. */
  datatype Builtin = Cd | Exit | Help

  /** builtin_names[]: the name of each builtin, in table order. */
  const BuiltinNames: seq<string> := ["cd", "exit", "help"]

  /** funcs[]: the handler at each index of the table. */
  const BuiltinFuncs: seq<Builtin> := [Cd, Exit, Help]

  /** get_builtin_funcs_size: the number of handlers, which is also the number
      of names the dispatch loop may index. */
  function BuiltinFuncsSize(): (n: nat)
    ensures n == |BuiltinFuncs| == |BuiltinNames|
  {
    |BuiltinFuncs|
  }

  /** The first index at or after `i` whose builtin name is `name`. */
  function LookupFrom(name: string, i: nat): (r: Option<nat>)
    requires i <= |BuiltinNames|
    ensures r.Some? ==> i <= r.value < |BuiltinNames| && BuiltinNames[r.value] == name
    ensures r.Some? ==> forall k | i <= k < r.value :: BuiltinNames[k] != name
    ensures r.None? <==> forall k | i <= k < |BuiltinNames| :: BuiltinNames[k] != name
    decreases |BuiltinNames| - i
  {
    if i == |BuiltinNames| then None
    else if BuiltinNames[i] == name then Some(i)
    else LookupFrom(name, i + 1)
  }

  /** The index of the first builtin named `name`, if there is one. */
  function Lookup(name: string): (r: Option<nat>)
    ensures r.Some? <==> name in BuiltinNames
    ensures r.Some? ==> r.value < |BuiltinNames| && BuiltinNames[r.value] == name
  {
    LookupFrom(name, 0)
  }

  /** The names of the table are distinct, so each one finds its own slot. */
  lemma LookupName(i: nat)
    requires i < |BuiltinNames|
    ensures Lookup(BuiltinNames[i]) == Some(i)
  {
  }

  /** What a handler leaves behind: its return value and the working directory. */
  datatype Effect = Effect(status: int, cwd: Path)

  /** bls_cd, bls_exit and bls_help on an argument list whose first entry names
      the builtin: cd asks chdir for args[1] when there is one and returns 1
      whether or not chdir succeeds; exit returns 0; help returns 1. */
  function Handle(b: Builtin, args: seq<string>, cwd: Path, chdir: Chdir): (e: Effect)
    ensures e.status == 0 <==> b == Exit
    ensures e.status == 0 || e.status == 1
    ensures e.cwd != cwd ==> b == Cd && |args| >= 2 && chdir(cwd, args[1]) == Some(e.cwd)
    ensures b == Cd && |args| >= 2 && chdir(cwd, args[1]).Some? ==> e.cwd == chdir(cwd, args[1]).value
  {
    match b
    case Cd =>
      if |args| < 2 then Effect(1, cwd)
      else (
        match chdir(cwd, args[1])
        case None => Effect(1, cwd)
        case Some(dir) => Effect(1, dir))
    case Exit => Effect(0, cwd)
    case Help => Effect(1, cwd)
  }

  /** bls_launch_command with its process creation left out: whatever the
      child does, the parent returns 1. */
  function LaunchStatus(args: seq<string>): (status: int)
    ensures status == 1
  {
    1
  }

  /** Which code bls_execute_command ran for a command. */
  datatype Action = NoCommand | Ran(builtin: Builtin) | Launched

  /** The result of bls_execute_command and the directory it leaves the shell in. */
  datatype Outcome = Outcome(status: int, cwd: Path, action: Action)

  /** bls_execute_command on the argument list read off the vector: an empty
      command returns 1; otherwise the first builtin whose name matches runs,
      and a command that matches none is launched. */
  function Dispatch(args: seq<string>, cwd: Path, chdir: Chdir): (o: Outcome)
    ensures |args| == 0 ==> o == Outcome(1, cwd, NoCommand)
    ensures |args| > 0 ==> (o.action == Launched <==> args[0] !in BuiltinNames)
    ensures o.action == Launched ==> o.status == 1 && o.cwd == cwd
    ensures o.status == 0 <==> |args| > 0 && args[0] == "exit"
    ensures o.status == 0 || o.status == 1
    ensures o.cwd != cwd ==> |args| >= 2 && args[0] == "cd" && chdir(cwd, args[1]) == Some(o.cwd)
  {
    if |args| == 0 then Outcome(1, cwd, NoCommand)
    else
      match Lookup(args[0])
      case Some(i) =>
        var b := BuiltinFuncs[i];
        var e := Handle(b, args, cwd, chdir);
        Outcome(e.status, e.cwd, Ran(b))
      case None => Outcome(LaunchStatus(args), cwd, Launched)
  }

  /** A builtin shadows any program of the same name: the handler at the
      builtin's own slot runs, and nothing is launched. */
  lemma BuiltinShadows(i: nat, rest: seq<string>, cwd: Path, chdir: Chdir)
    requires i < |BuiltinNames|
    ensures var args := [BuiltinNames[i]] + rest;
            var e := Handle(BuiltinFuncs[i], args, cwd, chdir);
            Dispatch(args, cwd, chdir) == Outcome(e.status, e.cwd, Ran(BuiltinFuncs[i]))
  {
    LookupName(i);
  }

  /** exit returns 0 and help returns 1 whatever arguments follow them, and
      neither moves the shell. */
  lemma ExitAndHelpIgnoreArguments(rest: seq<string>, cwd: Path, chdir: Chdir)
    ensures Dispatch(["exit"] + rest, cwd, chdir) == Outcome(0, cwd, Ran(Exit))
    ensures Dispatch(["help"] + rest, cwd, chdir) == Outcome(1, cwd, Ran(Help))
  {
    BuiltinShadows(1, rest, cwd, chdir);
    BuiltinShadows(2, rest, cwd, chdir);
  }

  /** cd returns 1 in every case, and without a directory argument it leaves
      the working directory alone. */
  lemma CdOutcome(rest: seq<string>, cwd: Path, chdir: Chdir)
    ensures Dispatch(["cd"] + rest, cwd, chdir).status == 1
    ensures Dispatch(["cd"] + rest, cwd, chdir).action == Ran(Cd)
    ensures rest == [] ==> Dispatch(["cd"] + rest, cwd, chdir).cwd == cwd
    ensures rest != [] ==> Dispatch(["cd"] + rest, cwd, chdir).cwd
                           == match chdir(cwd, rest[0]) { case None => cwd case Some(dir) => dir }
  {
    BuiltinShadows(0, rest, cwd, chdir);
    assert (["cd"] + rest)[1..] == rest;
  }
}
