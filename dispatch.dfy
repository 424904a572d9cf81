/** hvn: `hvn <subcommand> args...` runs the program `hvn-<subcommand>`,
    found through PATH, with the same arguments. */
module Dispatch {
  import opened CStr

  /** What becomes of the process. */
  datatype Outcome =
    | Usage(message: string)                      // fewer than two arguments: usage, then failure
    | Executed(file: string, args: seq<string>)   // execvp replaced the process
    | Failed(message: string)                     // execvp returned: failure

  /** The program run for a subcommand: the command's own name, '-', the
      subcommand. */
  function SubcommandPath(command: string, subcommand: string): string {
    command + "-" + subcommand
  }

  /** The path is one character longer than both names together, and the
      subcommand reads back from just after the command and its '-'. */
  lemma SubcommandPathReadsBack(command: string, subcommand: string)
    ensures var path := SubcommandPath(command, subcommand);
      |path| == |command| + |subcommand| + 1 &&
      path[..|command|] == command && path[|command|] == '-' && path[|command| + 1..] == subcommand
  {
    var path := SubcommandPath(command, subcommand);
    assert path[|command| + 1..] == subcommand;
  }

  /** Different subcommands of one command run different programs. */
  lemma SubcommandPathInjective(command: string, a: string, b: string)
    requires SubcommandPath(command, a) == SubcommandPath(command, b)
    ensures a == b
  {
    SubcommandPathReadsBack(command, a);
    SubcommandPathReadsBack(command, b);
  }

  /** The path buffer of len(argv[0]) + len(argv[1]) + 2 characters:
      argv[0] copied, the subcommand and its NUL copied one further, then
      the gap filled with '-'. */
  method BuildPath(command: string, subcommand: string) returns (path: array<char>)
    ensures fresh(path) && path.Length == |command| + |subcommand| + 2
    ensures path[..] == SubcommandPath(command, subcommand) + ['\0']
  {
    path := new char[|command| + |subcommand| + 2](_ => '\0');
    var end := StpNCpy(path, 0, command);
    end := StpNCpy(path, end + 1, subcommand + ['\0']);
    path[|command|] := '-';
    assert path[..] == path[..|command|] + [path[|command|]] + path[|command| + 1..];
  }

  /** main: with fewer than two arguments print the usage; otherwise put
      the path in argv[1] and exec it with argv[1..]. `execFails` says
      whether execvp returns for a file and arguments. */
  method RunSubcommand(argv: array<string>, execFails: (string, seq<string>) -> bool) returns (r: Outcome)
    requires argv.Length >= 1
    modifies argv
    ensures argv.Length < 2 ==> argv[..] == old(argv[..]) && r == Usage("usage: " + argv[0] + " <subcommand> ...\n")
    ensures argv.Length >= 2 ==>
      var path := SubcommandPath(old(argv[0]), old(argv[1]));
      argv[..] == old(argv[..])[1 := path] && argv[1..] == [path] + old(argv[2..]) &&
      r == if execFails(path, argv[1..]) then Failed("Unable to process subcommand " + old(argv[1]) + ": " + path)
           else Executed(path, argv[1..])
  {
    if argv.Length < 2 {
      return Usage("usage: " + argv[0] + " <subcommand> ...\n");
    }
    var command, subcommand := argv[0], argv[1];
    var buffer := BuildPath(command, subcommand);
    var path := buffer[..buffer.Length - 1];
    assert path == SubcommandPath(command, subcommand);
    argv[1] := path;
    assert argv[1..] == [path] + old(argv[2..]);
    if execFails(path, argv[1..]) {
      SubcommandPathReadsBack(command, subcommand);
      r := Failed("Unable to process subcommand " + path[|command| + 1..] + ": " + path);
    } else {
      r := Executed(path, argv[1..]);
    }
  }
}
