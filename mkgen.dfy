/** hvn-mkgen: writes the rules of a Makefile for the modules of a sources
    directory. Each module links its objects into an executable or a
    shared library; each source with an extension compiles to an object
    named after it; `-d module=dep,dep,` adds link dependencies.

    Directory walks are inputs (the paths they yield, in their order) and
    the text written to the Makefile is a returned string. */
module Mkgen {
  import opened CStr
  import opened Getopt
  import opened Table
  import Macro

  // ---------------------------------------------------------------------
  // The growable pointer array (hvn_mkgen_array_append)

  const DefaultCapacity: nat := 16

  /** A block holding its capacity, its count and `capacity` pointer
      slots. realloc may move the slots: the model then gives the array a
      fresh data block holding the same first `count` pointers. */
  class PtrArray {
    var capacity: nat
    var count: nat
    var data: array<string>

    ghost predicate Valid()
      reads this
    {
      0 < count <= capacity && data.Length == capacity
    }

    /** The pointers appended so far, oldest first. */
    ghost function Elements(): seq<string>
      reads this, data
      requires Valid()
    {
      data[..count]
    }

    /** Appending to the NULL array: a block of the default capacity that
        holds the one element. */
    constructor (x: string)
      ensures Valid() && fresh(data)
      ensures capacity == DefaultCapacity && count == 1 && Elements() == [x]
    {
      capacity := DefaultCapacity;
      count := 1;
      var slots := new string[DefaultCapacity];
      slots[0] := x;
      data := slots;
    }

    /** Appending to an existing array: a full array doubles its capacity
        first; the element lands at the old count and nothing before it
        changes. */
    method Push(x: string)
      requires Valid()
      modifies this, data
      ensures Valid()
      ensures Elements() == old(Elements()) + [x]
      ensures count == old(count) + 1
      ensures capacity == if old(count) == old(capacity) then 2 * old(capacity) else old(capacity)
      ensures old(count) < old(capacity) ==> data == old(data)
      ensures old(count) == old(capacity) ==> fresh(data)
    {
      if capacity == count {
        capacity := capacity * 2;
        var grown := new string[capacity];
        forall i | 0 <= i < count {
          grown[i] := data[i];
        }
        data := grown;
      }
      data[count] := x;
      count := count + 1;
    }
  }

  /** hvn_mkgen_array_append: NULL stands for the empty array. */
  method Append(arrayp: PtrArray?, x: string) returns (r: PtrArray)
    requires arrayp != null ==> arrayp.Valid()
    modifies arrayp
    modifies if arrayp != null then {arrayp.data} else {}
    ensures r.Valid()
    ensures arrayp == null ==> fresh(r) && fresh(r.data) && r.capacity == DefaultCapacity && r.count == 1 && r.Elements() == [x]
    ensures arrayp != null ==> (r == arrayp && r.Elements() == old(arrayp.Elements()) + [x] &&
      r.count == old(arrayp.count) + 1 &&
      r.capacity == (if old(arrayp.count) == old(arrayp.capacity) then 2 * old(arrayp.capacity) else old(arrayp.capacity)) &&
      (r.data == old(arrayp.data) || fresh(r.data)))
    ensures (arrayp == null || old(arrayp.capacity) == CapacityAfter(old(arrayp.count))) ==> r.capacity == CapacityAfter(r.count)
  {
    if arrayp == null {
      r := new PtrArray(x);
    } else {
      CapacityStep(arrayp.count);
      arrayp.Push(x);
      r := arrayp;
    }
  }

  /** The capacity of an array after n appends to NULL. */
  function CapacityAfter(n: nat): nat
    requires n >= 1
  {
    if n == 1 then DefaultCapacity
    else
      var before := CapacityAfter(n - 1);
      if n - 1 == before then 2 * before else before
  }

  /** One more append doubles a full array and keeps any other. */
  lemma CapacityStep(n: nat)
    requires n >= 1
    ensures CapacityAfter(n + 1) == if n == CapacityAfter(n) then 2 * CapacityAfter(n) else CapacityAfter(n)
  {
  }

  /** The array never holds more than it can, never wastes more than half
      of a grown block, and keeps the default capacity up to 16 elements. */
  lemma {:induction false} CapacityBounds(n: nat)
    requires n >= 1
    ensures n <= CapacityAfter(n)
    ensures n <= DefaultCapacity ==> CapacityAfter(n) == DefaultCapacity
    ensures n > DefaultCapacity ==> CapacityAfter(n) < 2 * n
  {
    if n > 1 {
      CapacityBounds(n - 1);
    }
  }

  // ---------------------------------------------------------------------
  // Targets (hvn_mkgen_print_module_target)

  /** A module whose name begins with "lib" is a shared library; any other
      is an executable. */
  function Target(name: string): string {
    if StartsWith(name, "lib") then "$(LIBRARIES)/" + name + ".so" else "$(BINARIES)/" + name
  }

  /** The kind of target is read off its directory, and the name reads
      back from the target. */
  lemma TargetReadsBack(name: string)
    ensures var t := Target(name);
      (StartsWith(t, "$(LIBRARIES)/") <==> StartsWith(name, "lib")) &&
      (StartsWith(name, "lib") ==> t[13..|t| - 3] == name && t[|t| - 3..] == ".so") &&
      (!StartsWith(name, "lib") ==> StartsWith(t, "$(BINARIES)/") && t[12..] == name)
  {
    var t := Target(name);
    if StartsWith(name, "lib") {
      assert t[13..|t| - 3] == name;
    } else {
      assert t[12..] == name;
      assert t[2] == 'B';
    }
  }

  /** Two modules never share a target. */
  lemma TargetInjective(a: string, b: string)
    requires Target(a) == Target(b)
    ensures a == b
  {
    TargetReadsBack(a);
    TargetReadsBack(b);
  }

  // ---------------------------------------------------------------------
  // Compile rules (hvn_mkgen_print_rule_extension)

  const RuleC := "\t$(CC) $(CFLAGS) -c -o $@ $<\n"
  const RuleCxx := "\t$(CXX) $(CXXFLAGS) -c -o $@ $<\n"

  const ExtensionRules: seq<(string, string)> := [(".c", RuleC), (".cc", RuleCxx), (".cpp", RuleCxx)]

  /** C sources compile with $(CC), C++ sources (".cc", ".cpp") with
      $(CXX), and no other extension has a rule. */
  lemma RuleForExtension(extension: string)
    ensures Lookup(ExtensionRules, extension) ==
      if extension == ".c" then Some(RuleC)
      else if extension == ".cc" || extension == ".cpp" then Some(RuleCxx)
      else None
  {
    var t := ExtensionRules;
    assert Lookup(t, extension) == if extension == ".c" then Some(RuleC) else Lookup(t[1..], extension);
    assert Lookup(t[1..], extension) == if extension == ".cc" then Some(RuleCxx) else Lookup(t[2..], extension) by {
      assert t[1..][1..] == t[2..];
    }
    assert Lookup(t[2..], extension) == if extension == ".cpp" then Some(RuleCxx) else Lookup(t[3..], extension) by {
      assert t[2..][1..] == t[3..];
    }
    assert t[3..] == [];
  }

  /** The rule text for a source's extension, or a warning and no text. */
  method PrintRuleExtension(extension: string) returns (text: string, warning: Option<string>)
    ensures Lookup(ExtensionRules, extension).Some? ==> text == Lookup(ExtensionRules, extension).value && warning == None
    ensures Lookup(ExtensionRules, extension).None? ==>
      text == "" && warning == Some("No rule for files with extension " + extension)
  {
    var rule := Find(ExtensionRules, extension);
    if rule.Some? {
      text, warning := rule.value, None;
    } else {
      text, warning := "", Some("No rule for files with extension " + extension);
    }
  }

  // ---------------------------------------------------------------------
  // Objects (hvn_mkgen_print_module_rules)

  /** The object of a source path: everything up to its last '.', then
      ".o". A path without '.' or ending in '.' has none. */
  function ObjectName(source: string): Option<string> {
    match LastIndexOf(source, '.')
    case None => None
    case Some(k) => if k + 1 == |source| then None else Some(source[..k + 1] + "o")
  }

  /** A source has an object exactly when its last '.' is followed by
      something; the object keeps the source up to and including that
      '.', and what the source has after it is its extension. */
  lemma ObjectNameSplits(source: string)
    ensures ObjectName(source).None? <==> '.' !in source || source[|source| - 1] == '.'
    ensures ObjectName(source).Some? ==> var o := ObjectName(source).value; var k := |o| - 2;
      |o| >= 2 && o[k..] == ".o" && o[..k] == UpToLast(source, '.') &&
      k + 1 < |source| && source[..k + 1] == o[..k + 1] && '.' !in source[k + 1..]
  {
    match LastIndexOf(source, '.')
    case None =>
    case Some(k) =>
      if k + 1 < |source| {
        var o := source[..k + 1] + "o";
        assert o[..k] == source[..k];
        assert o[k..] == ".o";
      }
  }

  /** The last '.' of the whole path counts, so a file without extension
      inside a dotted directory still gets an object, named after the
      directory. */
  lemma DottedDirectory()
    ensures ObjectName("/m/v1.2/README") == Some("/m/v1.o")
  {
    var s := "/m/v1.2/README";
    assert s[5] == '.' && '.' !in s[6..];
    assert s[..6] + "o" == "/m/v1.o";
  }

  /** A regular file the walk reaches: its own name (fts_name, the last
      component of its path) and its path after the sources directory. */
  datatype WalkFile = WalkFile(name: string, source: string)

  /** The walk skips every entry whose own name begins with '.', whatever
      directory it sits in. */
  predicate Hidden(file: WalkFile) {
    file.name != [] && file.name[0] == '.'
  }

  /** The object of one walked file: none for a hidden file. */
  function FileObject(file: WalkFile): Option<string> {
    if Hidden(file) then None else ObjectName(file.source)
  }

  /** The objects of a module's sources, in walk order. */
  function Objects(sources: seq<WalkFile>): seq<string> {
    if sources == [] then []
    else
      var last := sources[|sources| - 1];
      Objects(sources[..|sources| - 1]) + match FileObject(last) case Some(o) => [o] case None => []
  }

  lemma ObjectsSnoc(sources: seq<WalkFile>, file: WalkFile)
    ensures Objects(sources + [file]) == Objects(sources) + match FileObject(file) case Some(o) => [o] case None => []
  {
    assert (sources + [file])[..|sources|] == sources;
  }

  /** Every visible file that has an object contributes it. */
  lemma {:induction false} ObjectsComplete(sources: seq<WalkFile>, i: nat)
    requires i < |sources| && FileObject(sources[i]).Some?
    ensures FileObject(sources[i]).value in Objects(sources)
  {
    var init, last := sources[..|sources| - 1], sources[|sources| - 1];
    assert sources == init + [last];
    ObjectsSnoc(init, last);
    if i < |init| {
      assert init[i] == sources[i];
      ObjectsComplete(init, i);
    }
  }

  /** Every object comes from a visible file. */
  lemma {:induction false} ObjectsSound(sources: seq<WalkFile>, o: string)
    requires o in Objects(sources)
    ensures exists i | 0 <= i < |sources| :: FileObject(sources[i]) == Some(o)
  {
    var init, last := sources[..|sources| - 1], sources[|sources| - 1];
    assert sources == init + [last];
    ObjectsSnoc(init, last);
    if o in Objects(init) {
      ObjectsSound(init, o);
      var i :| 0 <= i < |init| && FileObject(init[i]) == Some(o);
      assert sources[i] == init[i];
    }
  }

  /** A hidden file gives no object, even one with an extension, and a
      file inside a hidden directory is still walked. */
  lemma HiddenSkipped()
    ensures FileObject(WalkFile(".hidden.c", "/m/.hidden.c")) == None
    ensures FileObject(WalkFile("x.c", "/m/.git/x.c")) == Some("/m/.git/x.o")
  {
    var s := "/m/.git/x.c";
    assert s[10..] == "c";
    assert s[9] == '.';
    LastIndexOfAt(s, '.', 9);
    assert s[..10] + "o" == "/m/.git/x.o";
  }

  /** The walk over a module: each visible regular file's object joins the
      `objects` array, which stays NULL while there is none. */
  method CollectObjects(sources: seq<WalkFile>) returns (objects: PtrArray?)
    ensures objects == null <==> Objects(sources) == []
    ensures objects != null ==> (fresh(objects) && objects.Valid() && objects.Elements() == Objects(sources) &&
      objects.capacity == CapacityAfter(objects.count))
  {
    objects := null;
    var i := 0;
    while i != |sources|
      invariant 0 <= i <= |sources|
      invariant objects == null <==> Objects(sources[..i]) == []
      invariant objects != null ==> (fresh(objects) && fresh(objects.data) && objects.Valid() &&
        objects.Elements() == Objects(sources[..i]) && objects.capacity == CapacityAfter(objects.count))
    {
      assert sources[..i + 1][..i] == sources[..i];
      var file := sources[i];
      if file.name == [] || file.name[0] != '.' {
        var name := ObjectName(file.source);
        if name.Some? {
          objects := Append(objects, name.value);
        }
      }
      i := i + 1;
    }
    assert sources[..i] == sources;
  }

  // ---------------------------------------------------------------------
  // Dependencies (hvn_mkgen_print_module_dependencies)

  /** The items of a list that a ',' terminates, in order. */
  function Items(list: string): seq<string>
    decreases |list|
  {
    var comma := IndexOf(list, ',');
    if comma.None? then [] else [list[..comma.value]] + Items(list[comma.value + 1..])
  }

  /** What follows the last ',' of a list: it is dropped. */
  function Leftover(list: string): string
    decreases |list|
  {
    var comma := IndexOf(list, ',');
    if comma.None? then list else Leftover(list[comma.value + 1..])
  }

  /** Items written back, each followed by its ','. */
  function Terminated(items: seq<string>): string {
    if items == [] then "" else items[0] + "," + Terminated(items[1..])
  }

  lemma ItemsStep(list: string, k: nat)
    requires IndexOf(list, ',') == Some(k)
    ensures Items(list) == [list[..k]] + Items(list[k + 1..])
    ensures Leftover(list) == Leftover(list[k + 1..])
  {
  }

  lemma TerminatedCons(item: string, items: seq<string>)
    ensures Terminated([item] + items) == item + "," + Terminated(items)
  {
    assert ([item] + items)[1..] == items;
  }

  lemma SplitAt(list: string, k: nat)
    requires k < |list| && list[k] == ','
    ensures list == list[..k] + "," + list[k + 1..]
  {
  }

  lemma Joined(a: string, b: string)
    ensures var s := a + "," + b; s[..|a|] == a && s[|a|] == ',' && s[|a| + 1..] == b
  {
  }

  lemma Regroup(a: string, b: string, c: string)
    ensures a + "," + b + c == a + "," + (b + c)
  {
  }

  /** A list is its items, each with its ',', then the leftover. */
  lemma {:induction false} ItemsSplit(list: string)
    ensures Terminated(Items(list)) + Leftover(list) == list
    decreases |list|
  {
    var comma := IndexOf(list, ',');
    if comma.Some? {
      var k := comma.value;
      ItemsSplit(list[k + 1..]);
      ItemsStep(list, k);
      TerminatedCons(list[..k], Items(list[k + 1..]));
      Regroup(list[..k], Terminated(Items(list[k + 1..])), Leftover(list[k + 1..]));
      SplitAt(list, k);
    }
  }

  /** The leftover holds no ',', and neither does any item. */
  lemma {:induction false} ItemsHaveNoComma(list: string)
    ensures ',' !in Leftover(list)
    ensures forall i | 0 <= i < |Items(list)| :: ',' !in Items(list)[i]
    decreases |list|
  {
    var comma := IndexOf(list, ',');
    if comma.Some? {
      ItemsHaveNoComma(list[comma.value + 1..]);
      ItemsStep(list, comma.value);
    }
  }

  /** Items without ',' that are written back are read again unchanged,
      with nothing left over. */
  lemma {:induction false} TerminatedReadsBack(items: seq<string>)
    requires forall i | 0 <= i < |items| :: ',' !in items[i]
    ensures Items(Terminated(items)) == items && Leftover(Terminated(items)) == ""
  {
    if items != [] {
      var rest := Terminated(items[1..]);
      assert [items[0]] + items[1..] == items;
      TerminatedCons(items[0], items[1..]);
      var list := items[0] + "," + rest;
      Joined(items[0], rest);
      IndexOfAt(list, ',', |items[0]|);
      ItemsStep(list, |items[0]|);
      TerminatedReadsBack(items[1..]);
    }
  }

  /** The key of a `key=list` argument, before its first '='. */
  function Key(list: string): Option<string> {
    var equal := IndexOf(list, '=');
    if equal.None? then None else Some(list[..equal.value])
  }

  /** The list of a `key=list` argument, after its first '='. */
  function Value(list: string): string {
    var equal := IndexOf(list, '=');
    if equal.None? then "" else list[equal.value + 1..]
  }

  /** The two readings of the key test: as written, `strncmp` nonzero
      selects a key of the module name's length that differs from it; as
      evidently intended, the key is the module name. */
  datatype KeyTest = AsWritten | Intended

  predicate Selected(test: KeyTest, name: string, list: string) {
    Key(list).Some? && |Key(list).value| == |name| &&
    if test == AsWritten then Key(list).value != name else Key(list).value == name
  }

  /** What one `-d` argument gives module `name`. */
  function Contribution(test: KeyTest, name: string, list: string): seq<string> {
    if Selected(test, name, list) then Items(Value(list)) else []
  }

  /** The parts of a sequence of arguments, joined in argument order. */
  function Gathered(part: string -> seq<string>, lists: seq<string>): seq<string> {
    if lists == [] then [] else Gathered(part, lists[..|lists| - 1]) + part(lists[|lists| - 1])
  }

  /** Every element of a part is gathered. */
  lemma {:induction false} GatheredComplete(part: string -> seq<string>, lists: seq<string>, i: nat, x: string)
    requires i < |lists| && x in part(lists[i])
    ensures x in Gathered(part, lists)
  {
    var init := lists[..|lists| - 1];
    if i < |init| {
      assert init[i] == lists[i];
      GatheredComplete(part, init, i, x);
    }
  }

  /** Every gathered element comes from some part. */
  lemma {:induction false} GatheredSound(part: string -> seq<string>, lists: seq<string>, x: string)
    requires x in Gathered(part, lists)
    ensures exists i | 0 <= i < |lists| :: x in part(lists[i])
  {
    var init := lists[..|lists| - 1];
    if x in Gathered(part, init) {
      GatheredSound(part, init, x);
      var i :| 0 <= i < |init| && x in part(init[i]);
      assert lists[i] == init[i];
    }
  }

  lemma GatheredPair(part: string -> seq<string>, a: string, b: string)
    ensures Gathered(part, [a, b]) == part(a) + part(b)
  {
    assert [a, b][..1] == [a] && [a][..0] == [];
    assert Gathered(part, [a]) == [] + part(a) == part(a);
  }

  /** What each `-d` argument gives module `name`. */
  function Contributions(test: KeyTest, name: string): string -> seq<string> {
    list => Contribution(test, name, list)
  }

  /** The dependencies of a module, in argument then item order. */
  function Dependencies(test: KeyTest, name: string, lists: seq<string>): seq<string> {
    Gathered(Contributions(test, name), lists)
  }

  /** The argument "key=item," keys one item. */
  lemma KeyedList(key: string, item: string)
    requires '=' !in key && ',' !in item
    ensures Key(key + "=" + item + ",") == Some(key)
    ensures Value(key + "=" + item + ",") == Terminated([item])
    ensures Items(Value(key + "=" + item + ",")) == [item]
  {
    var list := key + "=" + item + ",";
    assert list[|key|] == '=' && list[..|key|] == key;
    IndexOfAt(list, '=', |key|);
    TerminatedCons(item, []);
    assert [item] + [] == [item];
    assert list[|key| + 1..] == item + ",";
    TerminatedReadsBack([item]);
  }

  lemma DependenciesPair(test: KeyTest, name: string, a: string, b: string)
    ensures Dependencies(test, name, [a, b]) == Contribution(test, name, a) + Contribution(test, name, b)
  {
    GatheredPair(Contributions(test, name), a, b);
  }

  lemma ExampleLists()
    ensures Key("app=libz,") == Some("app") && Items(Value("app=libz,")) == ["libz"]
    ensures Key("bin=libq,") == Some("bin") && Items(Value("bin=libq,")) == ["libq"]
  {
    assert "app=libz," == "app" + "=" + "libz" + ",";
    assert "bin=libq," == "bin" + "=" + "libq" + ",";
    KeyedList("app", "libz");
    KeyedList("bin", "libq");
  }

  /** As written, module "app" links against the dependencies given for
      "bin" and ignores its own. */
  lemma DependenciesSwapped()
    ensures Dependencies(AsWritten, "app", ["app=libz,", "bin=libq,"]) == ["libq"]
  {
    ExampleLists();
    DependenciesPair(AsWritten, "app", "app=libz,", "bin=libq,");
    assert Contribution(AsWritten, "app", "app=libz,") == [];
    assert Contribution(AsWritten, "app", "bin=libq,") == ["libq"];
  }

  /** With the intended test, "app" gets its own dependencies. */
  lemma DependenciesKeyed()
    ensures Dependencies(Intended, "app", ["app=libz,", "bin=libq,"]) == ["libz"]
  {
    ExampleLists();
    DependenciesPair(Intended, "app", "app=libz,", "bin=libq,");
    assert Contribution(Intended, "app", "app=libz,") == ["libz"];
    assert Contribution(Intended, "app", "bin=libq,") == [];
  }

  /** The dependencies of the arguments so far, then those of one more. */
  lemma DependenciesSnoc(test: KeyTest, name: string, lists: seq<string>, list: string)
    ensures Dependencies(test, name, lists + [list]) == Dependencies(test, name, lists) + Contribution(test, name, list)
  {
    assert (lists + [list])[..|lists|] == lists;
  }

  /** Every item of a `-d` argument the test selects for the module is
      among its dependencies. */
  lemma DependenciesComplete(test: KeyTest, name: string, lists: seq<string>, i: nat, dep: string)
    requires i < |lists| && dep in Contribution(test, name, lists[i])
    ensures dep in Dependencies(test, name, lists)
  {
    GatheredComplete(Contributions(test, name), lists, i, dep);
  }

  /** Every dependency comes from a `-d` argument the test selects for the
      module. */
  lemma DependenciesSound(test: KeyTest, name: string, lists: seq<string>, dep: string)
    requires dep in Dependencies(test, name, lists)
    ensures exists i | 0 <= i < |lists| :: dep in Contribution(test, name, lists[i])
  {
    GatheredSound(Contributions(test, name), lists, dep);
    var i :| 0 <= i < |lists| && dep in Contributions(test, name)(lists[i]);
    assert Contributions(test, name)(lists[i]) == Contribution(test, name, lists[i]);
  }

  /** As written, a module never takes the arguments keyed by its own
      name, and takes every argument whose key has its length and differs
      from it. */
  lemma OwnKeyIgnoredAsWritten(name: string, list: string)
    ensures Key(list) == Some(name) ==> Contribution(AsWritten, name, list) == []
    ensures Key(list).Some? && |Key(list).value| == |name| && Key(list).value != name ==>
      Contribution(AsWritten, name, list) == Items(Value(list))
  {
  }

  /** The text written for targets: each preceded by a space. */
  function TargetsText(items: seq<string>): string {
    if items == [] then "" else TargetsText(items[..|items| - 1]) + " " + Target(items[|items| - 1])
  }

  lemma TargetsTextSnoc(done: seq<string>, item: string)
    ensures TargetsText(done + [item]) == TargetsText(done) + " " + Target(item)
  {
    assert (done + [item])[..|done|] == done;
  }

  lemma Assoc<T>(x: seq<T>, y: seq<T>, z: seq<T>)
    ensures (x + y) + z == x + (y + z)
  {
  }

  /** The targets of two lists of items are written one after the other. */
  lemma {:induction false} TargetsTextAppend(a: seq<string>, b: seq<string>)
    ensures TargetsText(a + b) == TargetsText(a) + TargetsText(b)
  {
    if b == [] {
      assert a + b == a;
    } else {
      var init, last := b[..|b| - 1], b[|b| - 1];
      var t := " " + Target(last);
      assert init + [last] == b;
      Assoc(a, init, [last]);
      TargetsTextAppend(a, init);
      TargetsTextSnoc(a + init, last);
      TargetsTextSnoc(init, last);
      Assoc(TargetsText(a + init), " ", Target(last));
      Assoc(TargetsText(init), " ", Target(last));
      calc {
        TargetsText(a + b);
        TargetsText((a + init) + [last]);
        TargetsText(a + init) + t;
        (TargetsText(a) + TargetsText(init)) + t;
        { Assoc(TargetsText(a), TargetsText(init), t); }
        TargetsText(a) + (TargetsText(init) + t);
        TargetsText(a) + TargetsText(b);
      }
    }
  }

  /** One more item read by the inner loop, which keeps the text after
      the last ',' it passed. */
  lemma ItemsAdvance(value: string, rest: string, comma: nat, done: seq<string>, item: string, next: string)
    requires IndexOf(rest, ',') == Some(comma) && item == rest[..comma] && next == rest[comma + 1..]
    requires Items(value) == done + Items(rest)
    ensures Items(value) == (done + [item]) + Items(next)
    ensures TargetsText(done + [item]) == TargetsText(done) + " " + Target(item)
  {
    ItemsStep(rest, comma);
    Assoc(done, [item], Items(next));
    TargetsTextSnoc(done, item);
  }

  /** The inner loop stops when no ',' is left. */
  lemma NoItemsLeft(value: string, rest: string, done: seq<string>)
    requires IndexOf(rest, ',').None?
    requires Items(value) == done + Items(rest)
    ensures Items(value) == done
  {
    assert done + [] == done;
  }

  /** The inner loop: the items of one list, each written as a target. */
  method PrintItems(value: string) returns (text: string)
    ensures text == TargetsText(Items(value))
  {
    text := "";
    var rest := value;
    ghost var done: seq<string> := [];
    var comma := IndexOf(rest, ',');
    while comma.Some?
      invariant comma == IndexOf(rest, ',')
      invariant Items(value) == done + Items(rest)
      invariant text == TargetsText(done)
      decreases |rest|
    {
      var dependency, next := rest[..comma.value], rest[comma.value + 1..];
      ItemsAdvance(value, rest, comma.value, done, dependency, next);
      text := text + " " + Target(dependency);
      done := done + [dependency];
      rest := next;
      comma := IndexOf(rest, ',');
    }
    NoItemsLeft(value, rest, done);
  }

  /** One more `-d` argument read by the outer loop adds the targets of
      its contribution. */
  lemma DependenciesAdvance(name: string, lists: seq<string>, i: nat, equal: Option<nat>)
    requires i < |lists| && equal == IndexOf(lists[i], '=')
    ensures TargetsText(Dependencies(AsWritten, name, lists[..i + 1])) ==
      TargetsText(Dependencies(AsWritten, name, lists[..i])) +
      if equal.Some? && |name| == equal.value && lists[i][..equal.value] != name
      then TargetsText(Items(lists[i][equal.value + 1..])) else ""
  {
    var list := lists[i];
    assert lists[..i + 1] == lists[..i] + [list];
    DependenciesSnoc(AsWritten, name, lists[..i], list);
    TargetsTextAppend(Dependencies(AsWritten, name, lists[..i]), Contribution(AsWritten, name, list));
    ContributionBy(name, list, equal);
  }

  /** The contribution of one argument, by the position of its first '='. */
  lemma ContributionBy(name: string, list: string, equal: Option<nat>)
    requires equal == IndexOf(list, '=')
    ensures Contribution(AsWritten, name, list) ==
      if equal.Some? && |name| == equal.value && list[..equal.value] != name then Items(list[equal.value + 1..]) else []
  {
    if equal.Some? {
      var key, value := list[..equal.value], list[equal.value + 1..];
      assert Key(list) == Some(key) && Value(list) == value;
    } else {
      assert Key(list).None?;
    }
  }

  /** The loop over the `-d` arguments: an argument is taken when its key
      has the module name's length and `strncmp` finds a difference. */
  method PrintDependencies(name: string, dependencies: PtrArray) returns (text: string)
    requires dependencies.Valid()
    ensures text == TargetsText(Dependencies(AsWritten, name, dependencies.Elements()))
  {
    ghost var lists := dependencies.Elements();
    text := "";
    var i := 0;
    while i != dependencies.count
      invariant 0 <= i <= dependencies.count
      invariant text == TargetsText(Dependencies(AsWritten, name, lists[..i]))
    {
      var list := dependencies.data[i];
      assert list == lists[i];
      var equal := IndexOf(list, '=');
      DependenciesAdvance(name, lists, i, equal);
      if equal.Some? && |name| == equal.value && list[..equal.value] != name {
        var more := PrintItems(list[equal.value + 1..]);
        text := text + more;
      }
      i := i + 1;
    }
    assert lists[..i] == lists;
  }

  // ---------------------------------------------------------------------
  // The link rule (the end of hvn_mkgen_print_module_rules)

  /** The prerequisites written for objects: each preceded by
      " $(OBJECTS)". */
  function ObjectsText(objects: seq<string>): string {
    if objects == [] then "" else ObjectsText(objects[..|objects| - 1]) + " $(OBJECTS)" + objects[|objects| - 1]
  }

  /** The link command: the module's flags macro between the linker flags
      and the output. */
  function LinkCommand(name: string): string {
    "\n\t$(LD) $(LDFLAGS) $(" + Macro.NameAsWritten(name) + ") -o $@ $^\n"
  }

  /** The rule linking a module: its target, its objects, the targets of
      its dependencies as the selection is written, then the link command. */
  function LinkRule(name: string, objects: seq<string>, lists: seq<string>): string {
    Target(name) + ":" + ObjectsText(objects) + TargetsText(Dependencies(AsWritten, name, lists)) + LinkCommand(name)
  }

  /** The macro reference opens right after the linker flags and the ')'
      after the macro closes it. Inside the macro, a ')' that would close
      the reference early appears exactly when the module name holds an
      'I', and a '$' that would start another reference exactly when it
      holds a 'D'. */
  lemma LinkCommandMacro(name: string)
    ensures var c, m := LinkCommand(name), Macro.NameAsWritten(name);
      c[..21] == "\n\t$(LD) $(LDFLAGS) $(" && c[21..21 + |m|] == m && c[21 + |m|] == ')' &&
      (')' in m <==> 'I' in name) && ('$' in m <==> 'D' in name)
  {
    var c, m := LinkCommand(name), Macro.NameAsWritten(name);
    assert c[21..21 + |m|] == m;
    Macro.AsWrittenPunctuation(name);
  }

  /** The module "Io" links with "$()OFLAGS)": an empty reference, then
      text make does not expand. */
  lemma LinkCommandIo()
    ensures LinkCommand("Io")[19..30] == "$()OFLAGS) "
  {
    Macro.AsWrittenPunctuation("Io");
    assert LinkCommand("Io") == "\n\t$(LD) $(LDFLAGS) $(" + ")OFLAGS" + ") -o $@ $^\n";
  }

  lemma ObjectsTextSnoc(done: seq<string>, o: string)
    ensures ObjectsText(done + [o]) == ObjectsText(done) + " $(OBJECTS)" + o
  {
    assert (done + [o])[..|done|] == done;
  }

  /** The end of the walk over a module: with no object, a warning and no
      rule; otherwise the target, " $(OBJECTS)" and each object, the
      dependency targets when there are -d arguments, and the link command
      with the macro built by the shared character loop. */
  method PrintModuleLink(name: string, objects: PtrArray?, dependencies: PtrArray?) returns (text: string, warning: Option<string>)
    requires objects != null ==> objects.Valid()
    requires dependencies != null ==> dependencies.Valid()
    ensures objects == null ==> text == "" && warning == Some("No objects for module " + name)
    ensures objects != null ==> (warning == None &&
      text == LinkRule(name, objects.Elements(), if dependencies == null then [] else dependencies.Elements()))
  {
    if objects == null {
      return "", Some("No objects for module " + name);
    }
    warning := None;
    var macro := new char[|name| + |Macro.Suffix| + 1];
    Macro.Fill(macro, name);
    var listed := PrintObjects(objects);
    var deps := "";
    if dependencies != null {
      deps := PrintDependencies(name, dependencies);
    }
    text := Target(name) + ":" + listed + deps + ("\n\t$(LD) $(LDFLAGS) $(" + macro[..|name| + |Macro.Suffix|] + ") -o $@ $^\n");
  }

  /** The loop over the objects array. */
  method PrintObjects(objects: PtrArray) returns (text: string)
    requires objects.Valid()
    ensures text == ObjectsText(objects.Elements())
  {
    ghost var all := objects.Elements();
    text := "";
    var i := 0;
    while i != objects.count
      invariant 0 <= i <= objects.count
      invariant text == ObjectsText(all[..i])
    {
      TakeSnoc(all, i);
      ObjectsTextSnoc(all[..i], all[i]);
      text := text + " $(OBJECTS)" + objects.data[i];
      i := i + 1;
    }
    assert all[..i] == all;
  }

  // ---------------------------------------------------------------------
  // Command line (hvn_mkgen_parse_args and the output name in main)

  datatype Args = Args(sources: string, dependencies: seq<string>)

  datatype Parsed = Parsed(args: Args, filename: string) | UsageError(message: string)

  const Letters: set<char> := {'S', 'd'}

  /** Options must be -S or -d with their argument; -S keeps its last
      value (default "src"), every -d is kept; at most one operand names
      the output, "Makefile.rules.test" by default. */
  function Parse(events: seq<Event>, operands: seq<string>): Parsed {
    var k := FirstUnrecognized(events, Letters);
    if k < |events| then UsageError(ComplaintByReturn(events[k]))
    else if |operands| > 1 then UsageError("Too much output files")
    else
      var sources := match LastArg(events, 'S') case Some(s) => s case None => "src";
      Parsed(Args(sources, AllArgs(events, 'd')), if operands == [] then "Makefile.rules.test" else operands[0])
  }

  /** The command line is accepted exactly when every option is -S or -d
      with its argument and at most one operand follows. */
  lemma ParseAcceptsIff(events: seq<Event>, operands: seq<string>)
    ensures Parse(events, operands).Parsed? <==>
      (forall i | 0 <= i < |events| :: events[i].Opt? && events[i].letter in Letters) && |operands| <= 1
  {
    var k := FirstUnrecognized(events, Letters);
    if k < |events| {
      assert !Recognized(events[k], Letters);
    }
  }

  /** Without -S the sources directory is "src", without an operand the
      output is "Makefile.rules.test", and every -d argument is kept. */
  lemma ParseDefaults(events: seq<Event>, i: nat)
    requires forall j | 0 <= j < |events| :: events[j].Opt? && events[j].letter == 'd'
    requires i < |events|
    ensures Parse(events, []) == Parsed(Args("src", AllArgs(events, 'd')), "Makefile.rules.test")
    ensures events[i].arg in Parse(events, []).args.dependencies
  {
    ParseAcceptsIff(events, []);
    LastArgIsLast(events, 'S');
    AllArgsComplete(events, 'd', i);
  }

  lemma ParseRejects(events: seq<Event>, operands: seq<string>, i: nat)
    requires i < |events| && !Recognized(events[i], Letters)
    requires forall j | 0 <= j < i :: Recognized(events[j], Letters)
    ensures Parse(events, operands) == UsageError(ComplaintByReturn(events[i]))
  {
    assert FirstUnrecognized(events, Letters) == i;
  }

  /** The dependencies array holds exactly the collected -d arguments,
      NULL standing for none, at the capacity reached by that many appends. */
  ghost predicate Holds(d: PtrArray?, collected: seq<string>)
    reads d, if d != null then {d.data} else {}
  {
    if d == null then collected == []
    else d.Valid() && d.Elements() == collected && d.capacity == CapacityAfter(d.count)
  }

  /** One -d option: Append keeps the array in step with the arguments. */
  method Collect(d: PtrArray?, x: string, ghost collected: seq<string>) returns (r: PtrArray)
    requires Holds(d, collected)
    modifies d, if d != null then {d.data} else {}
    ensures Holds(r, collected + [x])
    ensures d == null ==> fresh(r) && fresh(r.data)
    ensures d != null ==> r == d && (r.data == old(d.data) || fresh(r.data))
  {
    r := Append(d, x);
  }

  /** The option loop: -S replaces the sources, -d appends to the
      dependencies array; it stops at the first option it does not
      recognize, at k. */
  method ReadOptions(events: seq<Event>) returns (k: nat, sources: string, dependencies: PtrArray?)
    ensures k <= |events|
    ensures forall j | 0 <= j < k :: Recognized(events[j], Letters)
    ensures k < |events| ==> !Recognized(events[k], Letters)
    ensures sources == match LastArg(events[..k], 'S') case Some(s) => s case None => "src"
    ensures dependencies == null <==> AllArgs(events[..k], 'd') == []
    ensures dependencies != null ==> (fresh(dependencies) && dependencies.Valid() &&
      dependencies.Elements() == AllArgs(events[..k], 'd') && dependencies.capacity == CapacityAfter(dependencies.count))
  {
    sources := "src";
    dependencies := null;
    k := 0;
    ghost var before: seq<Event> := [];
    ghost var collected: seq<string> := [];
    while k < |events|
      invariant 0 <= k <= |events| && before == events[..k]
      invariant forall j | 0 <= j < k :: Recognized(events[j], Letters)
      invariant sources == match LastArg(before, 'S') case Some(s) => s case None => "src"
      invariant collected == AllArgs(before, 'd')
      invariant Holds(dependencies, collected)
      invariant dependencies != null ==> fresh(dependencies) && fresh(dependencies.data)
    {
      var e := events[k];
      if !(e.Opt? && (e.letter == 'S' || e.letter == 'd')) {
        break;
      }
      ghost var after := events[..k + 1];
      ParseStep(events, k, before, after);
      if e.letter == 'S' {
        sources := e.arg;
      } else {
        dependencies := Collect(dependencies, e.arg, collected);
        collected := collected + [e.arg];
      }
      k, before := k + 1, after;
    }
  }

  /** hvn_mkgen_parse_args: the options, then at most one operand naming
      the output file. */
  method ParseArgs(events: seq<Event>, operands: seq<string>) returns (r: Parsed, dependencies: PtrArray?)
    ensures r == Parse(events, operands)
    ensures r.Parsed? ==> (dependencies == null <==> r.args.dependencies == [])
    ensures r.Parsed? && dependencies != null ==> (fresh(dependencies) && dependencies.Valid() &&
      dependencies.Elements() == r.args.dependencies && dependencies.capacity == CapacityAfter(dependencies.count))
  {
    var k, sources;
    k, sources, dependencies := ReadOptions(events);
    if k < |events| {
      ParseRejects(events, operands, k);
      return UsageError(ComplaintByReturn(events[k])), dependencies;
    }
    ParseAccepted(events, operands, events[..k]);
    if |operands| > 1 {
      return UsageError("Too much output files"), dependencies;
    }
    var filename := if |operands| == 0 then "Makefile.rules.test" else operands[0];
    r := Parsed(Args(sources, AllArgs(events, 'd')), filename);
  }

  /** What one more option does to the -S value and the -d arguments. */
  lemma ParseStep(events: seq<Event>, i: nat, before: seq<Event>, after: seq<Event>)
    requires i < |events| && before == events[..i] && after == events[..i + 1]
    ensures events[i].Opt? && events[i].letter == 'S' ==>
      LastArg(after, 'S') == Some(events[i].arg) && AllArgs(after, 'd') == AllArgs(before, 'd')
    ensures events[i].Opt? && events[i].letter == 'd' ==>
      LastArg(after, 'S') == LastArg(before, 'S') && AllArgs(after, 'd') == AllArgs(before, 'd') + [events[i].arg]
  {
    TakeSnoc(events, i);
    LastArgSnoc(before, events[i], 'S');
    AllArgsSnoc(before, events[i], 'd');
    assert AllArgs(before, 'd') + [] == AllArgs(before, 'd');
  }

  /** After every option was recognized: the operands decide. */
  lemma ParseAccepted(events: seq<Event>, operands: seq<string>, before: seq<Event>)
    requires before == events[..|events|]
    requires forall j | 0 <= j < |events| :: Recognized(events[j], Letters)
    ensures before == events
    ensures |operands| > 1 ==> Parse(events, operands) == UsageError("Too much output files")
    ensures |operands| <= 1 ==>
      Parse(events, operands) ==
        Parsed(Args(match LastArg(before, 'S') case Some(s) => s case None => "src", AllArgs(before, 'd')),
          if |operands| == 0 then "Makefile.rules.test" else operands[0])
  {
    assert before == events;
    assert FirstUnrecognized(events, Letters) == |events|;
  }
}
