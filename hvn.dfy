/** The `hvn::module` of the C++ tools: a set of paths relative to a
    module's directory, with the module's name and its kind of target. */
module Hvn {
  import opened CStr
  import Macro

  datatype Target = Executable | Library | Folder

  /** A module whose name begins with "lib" is a library, any other an
      executable. */
  function Classify(name: string): (t: Target)
    ensures t == Library <==> StartsWith(name, "lib")
    ensures t != Folder
  {
    if StartsWith(name, "lib") then Library else Executable
  }

  /** `module::macro()`: letters upper-cased, every other character,
      digits included, turned into '_', then "FLAGS". */
  function ModuleMacro(name: string): (r: string)
    ensures |r| == |name| + |Macro.Suffix| && r[|name|..] == Macro.Suffix
    ensures forall i | 0 <= i < |name| :: IsUpper(r[i]) || r[i] == '_'
  {
    seq(|name|, i requires 0 <= i < |name| => if IsAlpha(name[i]) then ToUpper(name[i]) else '_') + Macro.Suffix
  }

  /** The header's macro against the C tools' macro: a digit is kept by
      the C tools and becomes '_' here, and an upper-case letter is turned
      into punctuation by the C tools as written and kept here. So the
      header agrees with the tools as written exactly on names without a
      digit or an upper-case letter, and with the tools' intended macro
      exactly on names without a digit. */
  lemma ModuleMacroAgrees(name: string)
    ensures ModuleMacro(name) == Macro.NameAsWritten(name) <==>
      forall i | 0 <= i < |name| :: !IsDigit(name[i]) && !IsUpper(name[i])
    ensures ModuleMacro(name) == Macro.MacroName(name) <==> forall i | 0 <= i < |name| :: !IsDigit(name[i])
  {
    var a, b := ModuleMacro(name), Macro.MacroName(name);
    if forall i | 0 <= i < |name| :: !IsDigit(name[i]) {
      assert forall i | 0 <= i < |a| :: a[i] == b[i] by {
        forall i | 0 <= i < |a| ensures a[i] == b[i] {
          if i < |name| {
            assert Macro.MacroChar(name[i]) == b[i];
          } else {
            assert a[i] == a[|name|..][i - |name|];
            assert b[i] == b[|name|..][i - |name|];
          }
        }
      }
    } else {
      var i :| 0 <= i < |name| && IsDigit(name[i]);
      assert a[i] == '_' && b[i] == Macro.MacroChar(name[i]) == name[i];
    }
    Macro.AsWrittenAgrees(name);
    if exists i | 0 <= i < |name| :: IsUpper(name[i]) {
      var i :| 0 <= i < |name| && IsUpper(name[i]);
      assert a[i] == ToUpper(name[i]) != Macro.NameAsWritten(name)[i];
    }
  }

  /** For example "lib2d" gives "LIB_DFLAGS" here and "LIB2DFLAGS" in the
      C tools. */
  lemma DigitMacros()
    ensures ModuleMacro("lib2d") == "LIB_DFLAGS" && Macro.NameAsWritten("lib2d") == "LIB2DFLAGS"
  {
    var a, b := ModuleMacro("lib2d"), Macro.NameAsWritten("lib2d");
    assert a[..5] == "LIB_D";
    assert b[..5] == "LIB2D";
    assert a == a[..5] + a[5..] && b == b[..5] + b[5..];
  }

  /** And "Ab" gives "ABFLAGS" here and "!BFLAGS" in the C tools as
      written. */
  lemma CaseMacros()
    ensures ModuleMacro("Ab") == "ABFLAGS" && Macro.NameAsWritten("Ab") == "!BFLAGS"
  {
    Macro.UpperCaseMangled();
    var c := ModuleMacro("Ab");
    assert c[..2] == "AB";
    assert c == c[..2] + c[2..];
  }

  /** The paths of a recursive walk of `path`, each with the module's path
      length cut off its front. */
  function Relative(path: string, walk: seq<string>): set<string>
    requires forall i | 0 <= i < |walk| :: |path| <= |walk[i]| && walk[i][..|path|] == path
  {
    set i | 0 <= i < |walk| :: walk[i][|path|..]
  }

  /** Cutting the prefix off loses nothing: every entry put back behind
      the module's path is a path of the walk, and every path of the walk
      gives an entry. */
  lemma RelativeReadsBack(path: string, walk: seq<string>)
    requires forall i | 0 <= i < |walk| :: |path| <= |walk[i]| && walk[i][..|path|] == path
    ensures forall e | e in Relative(path, walk) :: path + e in walk
    ensures forall i | 0 <= i < |walk| :: walk[i][|path|..] in Relative(path, walk) && path + walk[i][|path|..] == walk[i]
  {
    forall i | 0 <= i < |walk| ensures path + walk[i][|path|..] == walk[i] {
      assert walk[i] == walk[i][..|path|] + walk[i][|path|..];
    }
  }

  class Module {
    const name: string
    var kind: Target
    var entries: set<string>

    /** `module(name = "a.out", type = Executable)`: no entries. */
    constructor (name: string, kind: Target)
      ensures this.name == name && this.kind == kind && entries == {}
    {
      this.name := name;
      this.kind := kind;
      entries := {};
    }

    /** The default arguments. */
    constructor Default()
      ensures name == "a.out" && kind == Executable && entries == {}
    {
      name := "a.out";
      kind := Executable;
      entries := {};
    }

    /** `module(name, type, start, end)`: the entries of a range, once each. */
    constructor FromRange(name: string, kind: Target, elements: seq<string>)
      ensures this.name == name && this.kind == kind
      ensures forall e :: e in entries <==> e in elements
    {
      this.name := name;
      this.kind := kind;
      entries := set e | e in elements;
    }

    /** The copy constructor. */
    constructor Copy(other: Module)
      ensures name == other.name && kind == other.kind && entries == other.entries
    {
      name := other.name;
      kind := other.kind;
      entries := other.entries;
    }

    /** `type(t)`: the kind changes and nothing else does. */
    method SetType(t: Target)
      modifies this
      ensures Type() == t && entries == old(entries)
    {
      kind := t;
    }

    function Type(): Target
      reads this
    {
      kind
    }
  }

  /** `create_from_path`: a module named `name` holding the walk of `path`,
      relative to it. */
  method CreateFromPath(name: string, kind: Target, path: string, walk: seq<string>) returns (m: Module)
    requires forall i | 0 <= i < |walk| :: |path| <= |walk[i]| && walk[i][..|path|] == path
    ensures fresh(m) && m.name == name && m.kind == kind && m.entries == Relative(path, walk)
  {
    m := new Module(name, kind);
    var i := 0;
    while i != |walk|
      invariant 0 <= i <= |walk|
      invariant m.name == name && m.kind == kind
      invariant m.entries == set j | 0 <= j < i :: walk[j][|path|..]
      modifies m
    {
      m.entries := m.entries + {walk[i][|path|..]};
      i := i + 1;
    }
  }

  /** `create_from_entry`: the kind comes from the entry's file name; a
      filled module holds the walk of the entry, an unfilled one nothing. */
  method CreateFromEntry(filename: string, path: string, walk: seq<string>, filled: bool) returns (m: Module)
    requires forall i | 0 <= i < |walk| :: |path| <= |walk[i]| && walk[i][..|path|] == path
    ensures fresh(m) && m.name == filename && m.kind == Classify(filename)
    ensures m.entries == if filled then Relative(path, walk) else {}
  {
    var kind := Executable;
    if |filename| >= 3 && filename[..3] == "lib" {
      kind := Library;
    }
    if filled {
      m := CreateFromPath(filename, kind, path, walk);
    } else {
      m := new Module(filename, kind);
    }
  }
}
