/** hvn-init: creates the sources directory and, under it, one directory
    per target, with a hello-world main source for executables. The file
    system is a value the run threads through. */
module Init {
  import opened CStr
  import opened Getopt
  import opened Table
  import opened Sys

  const HelloWorldC := "#include <stdio.h>\n\nint\nmain(int argc, char **argv) {\n\n\tputs(\"Hello, World!\");\n\n\treturn 0;\n}\n\n"
  const HelloWorldCxx := "#include <iostream>\n\nint\nmain(int argc, char **argv) {\n\n\tstd::cout << \"Hello, World!\\n\";\n\n\treturn 0;\n}\n\n"

  /** The hello-world sources, by extension of the main file. */
  const HelloWorlds: seq<(string, string)> := [(".c", HelloWorldC), (".cc", HelloWorldCxx), (".cpp", HelloWorldCxx)]

  /** ".c" has the C hello world, ".cc" and ".cpp" the C++ one, any other
      extension none. */
  lemma TemplateOf(extension: string)
    ensures Lookup(HelloWorlds, extension) ==
      if extension == ".c" then Some(HelloWorldC)
      else if extension == ".cc" || extension == ".cpp" then Some(HelloWorldCxx)
      else None
  {
    LookupOfThree(HelloWorlds[0], HelloWorlds[1], HelloWorlds[2], extension);
  }

  lemma LookupOfThree<V>(a: (string, V), b: (string, V), c: (string, V), key: string)
    ensures Lookup([a, b, c], key) ==
      if a.0 == key then Some(a.1) else if b.0 == key then Some(b.1) else if c.0 == key then Some(c.1) else None
  {
    assert [a, b, c][1..] == [b, c];
    assert [b, c][1..] == [c];
    assert [c][1..] == [];
    assert Lookup([c], key) == if c.0 == key then Some(c.1) else None;
    assert Lookup([b, c], key) == if b.0 == key then Some(b.1) else Lookup([c], key);
  }

  /** The directories and files, the current directory, and the paths
      where creating anything fails for a reason other than existence
      (permissions, space). Paths are absolute or relative to `cwd`. */
  datatype Disk = Disk(cwd: string, directories: set<string>, files: map<string, string>, denied: set<string>)

  /** Paths are joined as text: "." names the current directory itself,
      and no other path is normalised. */
  function Resolve(disk: Disk, path: string): string {
    if path == "." then disk.cwd
    else if StartsWith(path, "/") then path else disk.cwd + "/" + path
  }

  /** The directory a resolved path is created in: the text before its
      last '/', or "/" for a top-level path. */
  function Parent(full: string): (r: string)
    ensures r != ""
  {
    var p := UpToLast(full, '/');
    if p == "" then "/" else p
  }

  /** The parent of dir/name, for a non-empty dir and a name without '/',
      is dir. */
  lemma ParentOfJoin(dir: string, name: string)
    requires dir != "" && '/' !in name
    ensures Parent(dir + "/" + name) == dir
  {
    UpToLastOf(dir, '/', name);
  }

  /** mkdir(2): the empty path fails (ENOENT); "." and ".." always exist
      (EEXIST); otherwise EEXIST when the path exists, another error
      (ENOENT, ENOTDIR) when the directory it would go in does not exist,
      another error when it is denied, and a new directory when none of
      these. */
  function Mkdir(disk: Disk, path: string): (Disk, Reply) {
    if path == "" then (disk, Failed(OtherErrno))
    else if path == "." || path == ".." then (disk, Failed(EEXIST))
    else
      var full := Resolve(disk, path);
      if full in disk.directories || full in disk.files then (disk, Failed(EEXIST))
      else if Parent(full) !in disk.directories || full in disk.denied then (disk, Failed(OtherErrno))
      else (disk.(directories := disk.directories + {full}), Done(0))
  }

  /** mkdir creates a directory exactly for a path other than "", "." and
      "..", that does not exist yet, whose parent directory exists, and
      that is not denied; it then adds that one directory. */
  lemma MkdirCreatesIff(disk: Disk, path: string)
    ensures var full := Resolve(disk, path);
      Mkdir(disk, path).1.Done? <==>
        path !in {"", ".", ".."} && full !in disk.directories && full !in disk.files &&
        Parent(full) in disk.directories && full !in disk.denied
    ensures Mkdir(disk, path).1.Done? ==>
      Mkdir(disk, path).0 == disk.(directories := disk.directories + {Resolve(disk, path)})
    ensures Mkdir(disk, path).1.Failed? ==> Mkdir(disk, path).0 == disk
  {
  }

  /** A path whose parent directory is missing cannot be made: with no
      "a", mkdir("a/b") fails with an error other than EEXIST. */
  lemma MkdirNeedsParent(disk: Disk, dir: string, name: string)
    requires dir !in {"", "."} && '/' !in name && name != ""
    requires var full := Resolve(disk, dir + "/" + name);
      full !in disk.directories && full !in disk.files && Resolve(disk, dir) !in disk.directories
    ensures Mkdir(disk, dir + "/" + name) == (disk, Failed(OtherErrno))
  {
    var path := dir + "/" + name;
    assert path != "" && path != "." && path != ".." by {
      assert path[|dir|] == '/';
    }
    var full := Resolve(disk, path);
    if StartsWith(path, "/") {
      assert StartsWith(dir, "/");
      assert full == dir + "/" + name;
      ParentOfJoin(dir, name);
      assert Resolve(disk, dir) == dir by {
        assert dir != "." by { assert dir[0] == '/'; }
      }
    } else {
      assert !StartsWith(dir, "/") by {
        assert path[..1] == dir[..1];
      }
      assert full == (disk.cwd + "/" + dir) + "/" + name;
      ParentOfJoin(disk.cwd + "/" + dir, name);
    }
  }

  /** chdir(2): the empty path fails (ENOENT), "." stays where it is, and
      any other path succeeds into an existing directory. */
  function Chdir(disk: Disk, path: string): (Disk, Reply) {
    if path == "" then (disk, Failed(OtherErrno))
    else if path == "." then (disk, Done(0))
    else
      var full := Resolve(disk, path);
      if full in disk.directories && full !in disk.denied then (disk.(cwd := full), Done(0))
      else (disk, Failed(OtherErrno))
  }

  /** fopen(path, "w") then fputs(contents): None when the file cannot be
      opened. */
  function CreateFile(disk: Disk, path: string, contents: string): Option<Disk> {
    var full := Resolve(disk, path);
    if full in disk.denied || full in disk.directories || Parent(full) !in disk.directories then None
    else Some(disk.(files := disk.files[full := contents]))
  }

  /** `<module>/main<extension>`. */
  function MainPath(name: string, extension: string): string {
    name + "/main" + extension
  }

  /** The main path holds the module name, "/main" and the extension, in
      that order; its basename is "main" and the extension when the
      extension holds no '/'. */
  lemma MainPathReadsBack(name: string, extension: string)
    ensures var p := MainPath(name, extension);
      |p| == |name| + |extension| + 5 &&
      p[..|name|] == name && p[|name|..|name| + 5] == "/main" && p[|name| + 5..] == extension
    ensures '/' !in extension ==> Basename(MainPath(name, extension)) == "main" + extension
  {
    var p := MainPath(name, extension);
    assert p[|name| + 5..] == extension;
    assert p[|name|..|name| + 5] == "/main";
    if '/' !in extension {
      assert p == name + "/" + ("main" + extension);
      BasenameOfPath(name, "main" + extension);
    }
  }

  /** The main path buffer of len(module) + len(extension) + 6
      characters: the module, '/', "main", the extension, NUL. */
  method BuildMainPath(name: string, extension: string) returns (path: array<char>)
    ensures fresh(path) && path.Length == |name| + |extension| + 6
    ensures path[..] == MainPath(name, extension) + ['\0']
  {
    path := new char[|name| + |extension| + 6](_ => '\0');
    var end := StpNCpy(path, 0, name);
    ghost var dir := path[..end];
    assert dir == name;
    path[end] := '/';
    assert path[..end + 1] == dir + "/" by {
      assert path[..end] == dir;
    }
    end := StpNCpy(path, end + 1, "main");
    ghost var stem := path[..end];
    assert stem == name + "/main";
    end := StpNCpy(path, end, extension);
    ghost var full := path[..end];
    assert full == MainPath(name, extension);
    path[end] := '\0';
    assert path[..] == full + ['\0'] by {
      assert path[..end] == full;
    }
  }

  /** hvn_init_module: what one target does to the disk, and its
      warnings. */
  function InitModule(disk: Disk, name: string, extension: string): (Disk, seq<string>) {
    if IndexOf(name, '/').Some? then (disk, ["Invalid module name " + name])
    else
      var (disk, reply) := Mkdir(disk, name);
      if reply.Failed? then (disk, ["Unable to create module source directory " + name])
      else if StartsWith(name, "lib") then (disk, [])
      else match Lookup(HelloWorlds, extension)
        case None => (disk, [])
        case Some(source) =>
          match CreateFile(disk, MainPath(name, extension), source)
          case None => (disk, ["Unable to create hello world source file " + MainPath(name, extension)])
          case Some(disk) => (disk, [])
  }

  /** The names without '/' that mkdir refuses: "" does not exist and "."
      and ".." do already; each only warns. */
  lemma SpecialNamesWarn(disk: Disk, name: string, extension: string)
    requires name == "" || name == "." || name == ".."
    ensures InitModule(disk, name, extension) == (disk, ["Unable to create module source directory " + name])
  {
    assert IndexOf(name, '/').None?;
  }

  /** A name holding '/' is refused with a warning and changes nothing. */
  lemma InvalidNameUntouched(disk: Disk, name: string, extension: string)
    requires '/' in name
    ensures InitModule(disk, name, extension) == (disk, ["Invalid module name " + name])
  {
  }

  /** A target never removes anything, never changes the current
      directory, and adds at most its own directory and its main file;
      a valid name whose directory could be made has it afterwards. */
  lemma InitModuleGrows(disk: Disk, name: string, extension: string)
    ensures '/' !in name && Mkdir(disk, name).1.Done? ==>
      Resolve(disk, name) in InitModule(disk, name, extension).0.directories
    ensures var (after, _) := InitModule(disk, name, extension);
      after.cwd == disk.cwd && after.denied == disk.denied &&
      disk.directories <= after.directories <= disk.directories + {Resolve(disk, name)} &&
      disk.files.Keys <= after.files.Keys <= disk.files.Keys + {Resolve(disk, MainPath(name, extension))} &&
      forall f | f in disk.files :: after.files[f] == disk.files[f] || f == Resolve(disk, MainPath(name, extension))
  {
    if '/' !in name {
      assert IndexOf(name, '/').None?;
    }
  }

  /** The main file is written exactly for a valid name whose directory is
      new and allowed, that does not begin with "lib", whose extension has
      a hello world, and whose main path is allowed; it then holds that
      hello world. */
  lemma MainFileIff(disk: Disk, name: string, extension: string)
    ensures var (after, _) := InitModule(disk, name, extension);
      var main := Resolve(disk, MainPath(name, extension));
      var written := '/' !in name && Mkdir(disk, name).1.Done? && !StartsWith(name, "lib") &&
        Lookup(HelloWorlds, extension).Some? && main !in disk.denied && main != Resolve(disk, name) && main !in disk.directories;
      (written ==> main in after.files && after.files[main] == Lookup(HelloWorlds, extension).value) &&
      (!written ==> after.files == disk.files)
  {
    var (after, _) := InitModule(disk, name, extension);
    var main := Resolve(disk, MainPath(name, extension));
    if '/' in name {
      assert IndexOf(name, '/').Some?;
      return;
    }
    assert IndexOf(name, '/').None?;
    var (made, reply) := Mkdir(disk, name);
    if reply.Failed? || StartsWith(name, "lib") || Lookup(HelloWorlds, extension).None? {
      return;
    }
    var source := Lookup(HelloWorlds, extension).value;
    TemplateOf(extension);
    MainInModule(disk, name, extension);
    assert made == disk.(directories := disk.directories + {Resolve(disk, name)});
    assert Resolve(made, MainPath(name, extension)) == main;
    var created := CreateFile(made, MainPath(name, extension), source);
    assert after == if created.Some? then created.value else made;
    assert created.Some? <==> main !in disk.denied && main != Resolve(disk, name) && main !in disk.directories;
  }

  /** The main file of a module goes in the module's directory. */
  lemma MainInModule(disk: Disk, name: string, extension: string)
    requires '/' !in name && '/' !in extension && name !in {"", "."}
    ensures Parent(Resolve(disk, MainPath(name, extension))) == Resolve(disk, name)
  {
    var path := MainPath(name, extension);
    assert !StartsWith(name, "/") && !StartsWith(path, "/") by {
      assert path[0] == name[0];
    }
    assert path != "." by {
      assert |path| > 1;
    }
    assert Resolve(disk, path) == (disk.cwd + "/" + name) + "/" + ("main" + extension);
    ParentOfJoin(disk.cwd + "/" + name, "main" + extension);
  }

  /** All targets, in order. */
  function InitAll(disk: Disk, names: seq<string>, extension: string): (Disk, seq<string>) {
    if names == [] then (disk, [])
    else
      var (before, warned) := InitAll(disk, names[..|names| - 1], extension);
      var (after, more) := InitModule(before, names[|names| - 1], extension);
      (after, warned + more)
  }

  /** A target named twice: once its directory exists, the second time
      only warns. */
  lemma TargetTwice(disk: Disk, name: string, extension: string)
    requires '/' !in name && Mkdir(disk, name).1.Done?
    ensures InitAll(disk, [name, name], extension).1 ==
      InitModule(disk, name, extension).1 + ["Unable to create module source directory " + name]
  {
    assert [name, name][..1] == [name];
    assert [name][..0] == [];
    assert IndexOf(name, '/').None?;
    var (first, warned) := InitModule(disk, name, extension);
    assert InitAll(disk, [name], extension) == (first, [] + warned);
    InitModuleGrows(disk, name, extension);
    assert Resolve(first, name) == Resolve(disk, name);
    assert Mkdir(first, name).1 == Failed(EEXIST);
    assert InitModule(first, name, extension).1 == ["Unable to create module source directory " + name];
  }

  datatype Args = Args(sources: string, extension: string)

  datatype Parsed = Parsed(args: Args, targets: seq<string>) | UsageError(message: string)

  const Letters: set<char> := {'S', 'e'}

  /** -S and -e keep their last value ("src" and ".c" by default); at
      least one target must follow. */
  function Parse(events: seq<Event>, operands: seq<string>): Parsed {
    var k := FirstUnrecognized(events, Letters);
    if k < |events| then UsageError(ComplaintByReturn(events[k]))
    else if operands == [] then UsageError("Missing input file(s)")
    else
      var sources := match LastArg(events, 'S') case Some(s) => s case None => "src";
      var extension := match LastArg(events, 'e') case Some(e) => e case None => ".c";
      Parsed(Args(sources, extension), operands)
  }

  /** The command line is accepted exactly when every option is -S or -e
      with its argument and a target follows. */
  lemma ParseAcceptsIff(events: seq<Event>, operands: seq<string>)
    ensures Parse(events, operands).Parsed? <==>
      (forall i | 0 <= i < |events| :: events[i].Opt? && events[i].letter in Letters) && operands != []
  {
    var k := FirstUnrecognized(events, Letters);
    if k < |events| {
      assert !Recognized(events[k], Letters);
    }
  }

  lemma ParseRejects(events: seq<Event>, operands: seq<string>, i: nat)
    requires i < |events| && !Recognized(events[i], Letters)
    requires forall j | 0 <= j < i :: Recognized(events[j], Letters)
    ensures Parse(events, operands) == UsageError(ComplaintByReturn(events[i]))
  {
    assert FirstUnrecognized(events, Letters) == i;
  }

  /** Without options the sources are "src" and the extension ".c". */
  lemma ParseDefaults(operands: seq<string>)
    requires operands != []
    ensures Parse([], operands) == Parsed(Args("src", ".c"), operands)
  {
  }

  /** hvn_init_parse_args: -S and -e replace their defaults, the first
      bad option ends the run, and a target must follow. */
  method ParseArgs(events: seq<Event>, operands: seq<string>) returns (r: Parsed)
    ensures r == Parse(events, operands)
  {
    var sources, extension := "src", ".c";
    var i := 0;
    while i < |events|
      invariant 0 <= i <= |events|
      invariant forall j | 0 <= j < i :: Recognized(events[j], Letters)
      invariant sources == match LastArg(events[..i], 'S') case Some(s) => s case None => "src"
      invariant extension == match LastArg(events[..i], 'e') case Some(e) => e case None => ".c"
    {
      var e := events[i];
      assert events[..i + 1] == events[..i] + [e];
      LastArgSnoc(events[..i], e, 'S');
      LastArgSnoc(events[..i], e, 'e');
      if e.Opt? && e.letter == 'S' {
        sources := e.arg;
      } else if e.Opt? && e.letter == 'e' {
        extension := e.arg;
      } else {
        ParseRejects(events, operands, i);
        return UsageError(ComplaintByReturn(e));
      }
      i := i + 1;
    }
    assert events[..i] == events;
    assert FirstUnrecognized(events, Letters) == |events|;
    if operands == [] {
      return UsageError("Missing input file(s)");
    }
    r := Parsed(Args(sources, extension), operands);
  }

  /** main: the sources directory may already exist; any other failure
      to create it, or to enter it, ends the run. */
  function Run(disk: Disk, events: seq<Event>, operands: seq<string>): (Disk, seq<string>, Exit) {
    match Parse(events, operands)
    case UsageError(message) => (disk, [], Failure(message))
    case Parsed(args, targets) =>
      var (disk, made) := Mkdir(disk, args.sources);
      if made.Failed? && made.errno != EEXIST then
        (disk, [], Failure("Unable to create sources directory " + args.sources))
      else
        var (disk, entered) := Chdir(disk, args.sources);
        if entered.Failed? then
          (disk, [], Failure("Unable to change current directory to sources directory " + args.sources))
        else
          var (disk, warnings) := InitAll(disk, targets, args.extension);
          (disk, warnings, Success)
  }

  /** A sources directory that already exists is entered and the targets
      are created in it; the empty path names no directory, and the run
      stops at its mkdir. */
  lemma ExistingSources(disk: Disk, events: seq<Event>, operands: seq<string>)
    requires Parse(events, operands).Parsed?
    requires var s := Resolve(disk, Parse(events, operands).args.sources); s in disk.directories && s !in disk.denied
    ensures var args := Parse(events, operands).args;
      args.sources == "" ==> Run(disk, events, operands) == (disk, [], Failure("Unable to create sources directory "))
    ensures var args := Parse(events, operands).args;
      args.sources != "" ==>
        Run(disk, events, operands).2 == Success &&
        Run(disk, events, operands).0.cwd == Resolve(disk, args.sources)
  {
    var args := Parse(events, operands).args;
    if args.sources == "" {
      assert Mkdir(disk, args.sources) == (disk, Failed(OtherErrno));
      assert "Unable to create sources directory " + args.sources == "Unable to create sources directory ";
      return;
    }
    var (after, _) := InitAll(disk.(cwd := Resolve(disk, args.sources)), operands, args.extension);
    InitAllKeepsCwd(disk.(cwd := Resolve(disk, args.sources)), operands, args.extension);
  }

  /** A sources path dir/name whose dir does not exist cannot be created,
      and the run stops there: `-S a/b` without "a" fails with "Unable to
      create sources directory a/b". */
  lemma NestedSourcesNeedParent(disk: Disk, events: seq<Event>, operands: seq<string>, dir: string, name: string)
    requires Parse(events, operands).Parsed? && Parse(events, operands).args.sources == dir + "/" + name
    requires dir !in {"", "."} && '/' !in name && name != ""
    requires var full := Resolve(disk, dir + "/" + name);
      full !in disk.directories && full !in disk.files && Resolve(disk, dir) !in disk.directories
    ensures var sources := dir + "/" + name;
      Run(disk, events, operands) == (disk, [], Failure("Unable to create sources directory " + sources))
  {
    var sources := Parse(events, operands).args.sources;
    MkdirNeedsParent(disk, dir, name);
    assert Mkdir(disk, sources) == (disk, Failed(OtherErrno));
  }

  lemma {:induction false} InitAllKeepsCwd(disk: Disk, names: seq<string>, extension: string)
    ensures InitAll(disk, names, extension).0.cwd == disk.cwd
  {
    if names != [] {
      InitAllKeepsCwd(disk, names[..|names| - 1], extension);
      InitModuleGrows(InitAll(disk, names[..|names| - 1], extension).0, names[|names| - 1], extension);
    }
  }

  /** A usage error touches nothing. */
  lemma UsageTouchesNothing(disk: Disk, events: seq<Event>, operands: seq<string>)
    requires Parse(events, operands).UsageError?
    ensures Run(disk, events, operands) == (disk, [], Failure(Parse(events, operands).message))
  {
  }

  /** hvn_init_module, statement by statement. */
  method InitModuleStep(disk: Disk, name: string, extension: string) returns (after: Disk, warnings: seq<string>)
    ensures (after, warnings) == InitModule(disk, name, extension)
  {
    if IndexOf(name, '/').Some? {
      return disk, ["Invalid module name " + name];
    }
    var reply;
    after, reply := Mkdir(disk, name).0, Mkdir(disk, name).1;
    if reply.Failed? {
      return after, ["Unable to create module source directory " + name];
    }
    warnings := [];
    if !(|name| >= 3 && name[..3] == "lib") {
      var source := Find(HelloWorlds, extension);
      if source.Some? {
        var buffer := BuildMainPath(name, extension);
        var path := buffer[..buffer.Length - 1];
        assert path == MainPath(name, extension);
        var created := CreateFile(after, path, source.value);
        if created.Some? {
          after := created.value;
        } else {
          warnings := ["Unable to create hello world source file " + path];
        }
      }
    }
  }

  /** The target loop: each operand in turn becomes a module, failures
      only warn. */
  method InitTargets(start: Disk, targets: seq<string>, extension: string) returns (after: Disk, warnings: seq<string>)
    ensures (after, warnings) == InitAll(start, targets, extension)
  {
    after, warnings := start, [];
    var i := 0;
    while i != |targets|
      invariant 0 <= i <= |targets|
      invariant (after, warnings) == InitAll(start, targets[..i], extension)
    {
      assert targets[..i + 1][..i] == targets[..i];
      var more;
      after, more := InitModuleStep(after, targets[i], extension);
      warnings := warnings + more;
      i := i + 1;
    }
    assert targets[..i] == targets;
  }

  /** main's loop over the targets. */
  method Initialize(disk: Disk, events: seq<Event>, operands: seq<string>) returns (after: Disk, warnings: seq<string>, exit: Exit)
    ensures (after, warnings, exit) == Run(disk, events, operands)
  {
    var parsed := ParseArgs(events, operands);
    if parsed.UsageError? {
      return disk, [], Failure(parsed.message);
    }
    var args := parsed.args;
    var made;
    after, made := Mkdir(disk, args.sources).0, Mkdir(disk, args.sources).1;
    if made.Failed? && made.errno != EEXIST {
      return after, [], Failure("Unable to create sources directory " + args.sources);
    }
    var entered;
    after, entered := Chdir(after, args.sources).0, Chdir(after, args.sources).1;
    if entered.Failed? {
      return after, [], Failure("Unable to change current directory to sources directory " + args.sources);
    }
    after, warnings := InitTargets(after, parsed.targets, args.extension);
    exit := Success;
  }
}
