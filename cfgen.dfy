/** hvn-cfgen: writes a `configure` shell script for the modules of a
    sources directory. The script is a fixed sequence of text blocks, some
    present only for the languages asked for with -l, and three passes
    over the modules, each printing one line per module macro. */
module Cfgen {
  import opened CStr
  import opened Getopt
  import Macro

  // ---------------------------------------------------------------------
  // The language list of -l (strtok on ",", strcasecmp)

  /** strtok(list, ","): the maximal runs of characters other than ',',
      in order; empty runs are skipped. */
  function Tokens(list: string): seq<string>
    decreases |list|
  {
    var comma := IndexOf(list, ',');
    if comma.None? then (if list == [] then [] else [list])
    else (if comma.value == 0 then [] else [list[..comma.value]]) + Tokens(list[comma.value + 1..])
  }

  /** Every token is non-empty and holds no ','. */
  lemma {:induction false} TokensWellFormed(list: string)
    ensures forall i | 0 <= i < |Tokens(list)| :: Tokens(list)[i] != [] && ',' !in Tokens(list)[i]
    decreases |list|
  {
    var comma := IndexOf(list, ',');
    if comma.Some? {
      TokensWellFormed(list[comma.value + 1..]);
    }
  }

  /** Items written with ',' between them. */
  function Joined(items: seq<string>): string {
    if items == [] then ""
    else if |items| == 1 then items[0]
    else items[0] + "," + Joined(items[1..])
  }

  lemma TokensStep(list: string, k: nat)
    requires k < |list| && list[k] == ',' && ',' !in list[..k] && k > 0
    ensures Tokens(list) == [list[..k]] + Tokens(list[k + 1..])
  {
    IndexOfAt(list, ',', k);
  }

  lemma TokensWhole(list: string)
    requires list != [] && ',' !in list
    ensures Tokens(list) == [list]
  {
  }

  /** Non-empty items without ',' are read back by strtok from the list
      that joins them. */
  lemma {:induction false} TokensOfJoined(items: seq<string>)
    requires forall i | 0 <= i < |items| :: items[i] != [] && ',' !in items[i]
    ensures Tokens(Joined(items)) == items
  {
    if |items| == 1 {
      TokensWhole(items[0]);
    } else if |items| > 1 {
      var rest := Joined(items[1..]);
      var list := items[0] + "," + rest;
      assert list[..|items[0]|] == items[0] && list[|items[0]|] == ',';
      assert list[|items[0]| + 1..] == rest;
      TokensStep(list, |items[0]|);
      TokensOfJoined(items[1..]);
      assert [items[0]] + items[1..] == items;
    }
  }

  /** Leading, doubled and trailing commas add no token. */
  lemma EmptyTokensSkipped(list: string)
    ensures Tokens("," + list) == Tokens(list)
    ensures Tokens(list + ",") == Tokens(list)
  {
    IndexOfAt("," + list, ',', 0);
    assert ("," + list)[1..] == list;
    TrailingComma(list);
  }

  lemma {:induction false} TrailingComma(list: string)
    ensures Tokens(list + ",") == Tokens(list)
    decreases |list|
  {
    var comma := IndexOf(list, ',');
    var s := list + ",";
    if comma.None? {
      IndexOfAt(s, ',', |list|);
      assert s[..|list|] == list;
      assert s[|list| + 1..] == [];
    } else {
      var k := comma.value;
      IndexOfAt(s, ',', k);
      assert s[..k] == list[..k];
      assert s[k + 1..] == list[k + 1..] + ",";
      TrailingComma(list[k + 1..]);
    }
  }

  datatype Language = C | Asm | Cxx

  /** The language a -l item names, compared without case. */
  function LanguageNamed(item: string): Option<Language> {
    if EqualsIgnoreCase("C", item) then Some(C)
    else if EqualsIgnoreCase("ASM", item) then Some(Asm)
    else if EqualsIgnoreCase("C++", item) then Some(Cxx)
    else None
  }

  lemma LanguageNames()
    ensures LanguageNamed("c") == Some(C) && LanguageNamed("C") == Some(C)
    ensures LanguageNamed("asm") == Some(Asm) && LanguageNamed("aSm") == Some(Asm)
    ensures LanguageNamed("c++") == Some(Cxx)
  {
    assert EqualsIgnoreCase("C", "c") && EqualsIgnoreCase("ASM", "aSm") && EqualsIgnoreCase("C++", "c++");
    assert !EqualsIgnoreCase("ASM", "c++") by {
      assert ToLower("ASM"[0]) != ToLower("c++"[0]);
    }
  }

  /** Neither "cxx" nor the empty item names a language. */
  lemma UnknownLanguageNames()
    ensures LanguageNamed("cxx") == None && LanguageNamed("") == None
  {
    assert !EqualsIgnoreCase("C", "cxx") && !EqualsIgnoreCase("ASM", "cxx") && !EqualsIgnoreCase("C++", "cxx") by {
      assert ToLower("C++"[1]) != ToLower("cxx"[1]);
    }
  }

  /** The three bits of the arguments record. */
  datatype Languages = Languages(hasC: bool, hasAsm: bool, hasCxx: bool)

  const NoLanguages := Languages(false, false, false)

  function Has(languages: Languages, language: Language): bool {
    match language
    case C => languages.hasC
    case Asm => languages.hasAsm
    case Cxx => languages.hasCxx
  }

  /** The bits set by one item. */
  function Enable(languages: Languages, item: string): Languages {
    match LanguageNamed(item)
    case Some(C) => languages.(hasC := true)
    case Some(Asm) => languages.(hasAsm := true)
    case Some(Cxx) => languages.(hasCxx := true)
    case None => languages
  }

  /** The bits after every item, in order. */
  function EnableAll(languages: Languages, items: seq<string>): Languages {
    if items == [] then languages
    else Enable(EnableAll(languages, items[..|items| - 1]), items[|items| - 1])
  }

  /** The items that name no language, each warned about, in order. */
  function Unsupported(items: seq<string>): seq<string> {
    if items == [] then []
    else
      var last := items[|items| - 1];
      Unsupported(items[..|items| - 1]) + if LanguageNamed(last).None? then [last] else []
  }

  /** One item enables its own language and keeps every other bit. */
  lemma HasEnable(languages: Languages, item: string, language: Language)
    ensures Has(Enable(languages, item), language) <==> Has(languages, language) || LanguageNamed(item) == Some(language)
  {
  }

  /** A bit once set stays set. */
  lemma {:induction false} EnableAllKeeps(languages: Languages, items: seq<string>, language: Language)
    requires Has(languages, language)
    ensures Has(EnableAll(languages, items), language)
  {
    if items != [] {
      EnableAllKeeps(languages, items[..|items| - 1], language);
      HasEnable(EnableAll(languages, items[..|items| - 1]), items[|items| - 1], language);
    }
  }

  /** An item that names a language sets its bit, whatever follows. */
  lemma {:induction false} EnableAllNamed(languages: Languages, items: seq<string>, language: Language, i: nat)
    requires i < |items| && LanguageNamed(items[i]) == Some(language)
    ensures Has(EnableAll(languages, items), language)
  {
    var init, last := items[..|items| - 1], items[|items| - 1];
    HasEnable(EnableAll(languages, init), last, language);
    if i < |init| {
      assert init[i] == items[i];
      EnableAllNamed(languages, init, language, i);
    }
  }

  /** A bit set by the items comes from an item that names its language. */
  lemma {:induction false} EnableAllSource(languages: Languages, items: seq<string>, language: Language) returns (i: nat)
    requires Has(EnableAll(languages, items), language) && !Has(languages, language)
    ensures i < |items| && LanguageNamed(items[i]) == Some(language)
  {
    if items == [] {
      assert false;
    }
    var init, last := items[..|items| - 1], items[|items| - 1];
    HasEnable(EnableAll(languages, init), last, language);
    if LanguageNamed(last) == Some(language) {
      i := |items| - 1;
    } else {
      i := EnableAllSource(languages, init, language);
      assert items[i] == init[i];
    }
  }

  /** A language is enabled exactly when it was before or an item names it:
      items are never cleared and unknown items change nothing. */
  lemma EnableAllIff(languages: Languages, items: seq<string>, language: Language)
    ensures Has(EnableAll(languages, items), language) <==>
      Has(languages, language) || exists i | 0 <= i < |items| :: LanguageNamed(items[i]) == Some(language)
  {
    if Has(languages, language) {
      EnableAllKeeps(languages, items, language);
    }
    if exists i | 0 <= i < |items| :: LanguageNamed(items[i]) == Some(language) {
      var i :| 0 <= i < |items| && LanguageNamed(items[i]) == Some(language);
      EnableAllNamed(languages, items, language, i);
    }
    if Has(EnableAll(languages, items), language) && !Has(languages, language) {
      var i := EnableAllSource(languages, items, language);
    }
  }

  /** The warnings name exactly the items that are no language. */
  lemma {:induction false} UnsupportedIff(items: seq<string>, item: string)
    ensures item in Unsupported(items) <==> item in items && LanguageNamed(item).None?
  {
    if items != [] {
      var init := items[..|items| - 1];
      UnsupportedIff(init, item);
      assert items == init + [items[|items| - 1]];
    }
  }

  lemma EnableAllSnoc(languages: Languages, items: seq<string>, item: string)
    ensures EnableAll(languages, items + [item]) == Enable(EnableAll(languages, items), item)
    ensures Unsupported(items + [item]) == Unsupported(items) + if LanguageNamed(item).None? then [item] else []
  {
    assert (items + [item])[..|items|] == items;
  }

  lemma {:induction false} EnableAllAppend(languages: Languages, a: seq<string>, b: seq<string>)
    ensures EnableAll(languages, a + b) == EnableAll(EnableAll(languages, a), b)
    ensures Unsupported(a + b) == Unsupported(a) + Unsupported(b)
  {
    if b == [] {
      assert a + b == a;
    } else {
      var init := b[..|b| - 1];
      var last := b[|b| - 1];
      assert b == init + [last];
      assert a + b == (a + init) + [last];
      EnableAllAppend(languages, a, init);
      EnableAllSnoc(languages, a + init, last);
      EnableAllSnoc(EnableAll(languages, a), init, last);
      EnableAllSnoc(languages, init, last);
    }
  }

  /** The strtok loop of one -l argument: set the bit of each language
      named, warn about every other item, and go on with the next item. */
  method EnableLanguages(languages: Languages, list: string) returns (r: Languages, unsupported: seq<string>)
    ensures r == EnableAll(languages, Tokens(list))
    ensures unsupported == Unsupported(Tokens(list))
  {
    var items := Tokens(list);
    r, unsupported := languages, [];
    var i := 0;
    while i != |items|
      invariant 0 <= i <= |items|
      invariant r == EnableAll(languages, items[..i])
      invariant unsupported == Unsupported(items[..i])
    {
      var item := items[i];
      assert items[..i + 1] == items[..i] + [item];
      EnableAllSnoc(languages, items[..i], item);
      if EqualsIgnoreCase("C", item) {
        r := r.(hasC := true);
      } else if EqualsIgnoreCase("ASM", item) {
        r := r.(hasAsm := true);
      } else if EqualsIgnoreCase("C++", item) {
        r := r.(hasCxx := true);
      } else {
        unsupported := unsupported + [item];
      }
      i := i + 1;
    }
    assert items[..i] == items;
  }

  // ---------------------------------------------------------------------
  // Command line (hvn_cfgen_parse_args and the output name in main)

  /** The items of every -l argument, in order. */
  function LanguageItems(events: seq<Event>): seq<string> {
    if events == [] then []
    else
      var last := events[|events| - 1];
      LanguageItems(events[..|events| - 1]) + if last.Opt? && last.letter == 'l' then Tokens(last.arg) else []
  }

  lemma LanguageItemsSnoc(events: seq<Event>, e: Event)
    ensures LanguageItems(events + [e]) == LanguageItems(events) + if e.Opt? && e.letter == 'l' then Tokens(e.arg) else []
  {
    assert (events + [e])[..|events|] == events;
  }

  datatype Config = Config(sources: string, languages: Languages, unsupported: seq<string>)

  /** A usage error keeps the "Unsupported language" warnings printed for
      the -l items read before it. */
  datatype Parsed = Parsed(config: Config, filename: string) | UsageError(unsupported: seq<string>, message: string)

  const Letters: set<char> := {'S', 'l'}

  /** Options must be -S or -l with their argument; -S keeps its last
      value (default "src"); the -l items enable languages; at most one
      operand names the output, "configure" by default. */
  function Parse(events: seq<Event>, operands: seq<string>): Parsed {
    var k := FirstUnrecognized(events, Letters);
    if k < |events| then UsageError(Unsupported(LanguageItems(events[..k])), Complaint(events[k]))
    else if |operands| > 1 then UsageError(Unsupported(LanguageItems(events)), "Too many output files")
    else
      var sources := match LastArg(events, 'S') case Some(s) => s case None => "src";
      var items := LanguageItems(events);
      Parsed(Config(sources, EnableAll(NoLanguages, items), Unsupported(items)),
        if operands == [] then "configure" else operands[0])
  }

  /** The command line is accepted exactly when every option is -S or -l
      with its argument and at most one operand follows. */
  lemma ParseAcceptsIff(events: seq<Event>, operands: seq<string>)
    ensures Parse(events, operands).Parsed? <==>
      (forall i | 0 <= i < |events| :: events[i].Opt? && events[i].letter in Letters) && |operands| <= 1
  {
    var k := FirstUnrecognized(events, Letters);
    if k < |events| {
      assert !Recognized(events[k], Letters);
    }
  }

  /** With no option and no operand the script is "configure", for the
      modules of "src", with no language. */
  lemma ParseDefaults()
    ensures Parse([], []) == Parsed(Config("src", NoLanguages, []), "configure")
  {
  }

  lemma ParseRejects(events: seq<Event>, operands: seq<string>, i: nat)
    requires i < |events| && !Recognized(events[i], Letters)
    requires forall j | 0 <= j < i :: Recognized(events[j], Letters)
    ensures Parse(events, operands) == UsageError(Unsupported(LanguageItems(events[..i])), Complaint(events[i]))
  {
    assert FirstUnrecognized(events, Letters) == i;
  }

  /** The warning for an unsupported -l item is printed before a later
      option is rejected, and stays. */
  lemma WarnedBeforeRejection()
    ensures Parse([Opt('l', "foo"), UnknownOption('x')], []) == UsageError(["foo"], "Unknown argument -x")
  {
    var events := [Opt('l', "foo"), UnknownOption('x')];
    ParseRejects(events, [], 1);
    assert events[..1] == [Opt('l', "foo")];
    OneUnsupported("foo");
  }

  /** A single -l item naming no language is warned about. */
  lemma OneUnsupported(item: string)
    requires item != [] && ',' !in item && LanguageNamed(item).None?
    ensures Unsupported(LanguageItems([Opt('l', item)])) == [item]
  {
    TokensWhole(item);
    assert [Opt('l', item)][..0] == [];
    assert Unsupported([item]) == Unsupported([]) + [item];
  }

  /** The languages and warnings of the items so far, then of one more
      -l list. */
  lemma LanguagesStep(items: seq<string>, tokens: seq<string>, languages: Languages, more: Languages, unsupported: seq<string>, warned: seq<string>)
    requires languages == EnableAll(NoLanguages, items) && unsupported == Unsupported(items)
    requires more == EnableAll(languages, tokens) && warned == Unsupported(tokens)
    ensures more == EnableAll(NoLanguages, items + tokens) && unsupported + warned == Unsupported(items + tokens)
  {
    EnableAllAppend(NoLanguages, items, tokens);
  }

  /** The option loop: -S replaces the sources, each -l list enables its
      languages and warns about the other items; it stops at the first
      option it does not recognize, at k. */
  method ReadOptions(events: seq<Event>) returns (k: nat, sources: string, languages: Languages, unsupported: seq<string>)
    ensures k <= |events|
    ensures forall j | 0 <= j < k :: Recognized(events[j], Letters)
    ensures k < |events| ==> !Recognized(events[k], Letters)
    ensures sources == match LastArg(events[..k], 'S') case Some(s) => s case None => "src"
    ensures languages == EnableAll(NoLanguages, LanguageItems(events[..k]))
    ensures unsupported == Unsupported(LanguageItems(events[..k]))
  {
    sources := "src";
    languages := NoLanguages;
    unsupported := [];
    k := 0;
    ghost var before: seq<Event> := [];
    while k < |events| && events[k].Opt? && (events[k].letter == 'S' || events[k].letter == 'l')
      invariant 0 <= k <= |events| && before == events[..k]
      invariant forall e | e in before :: Recognized(e, Letters)
      invariant ReadSoFar(before, sources, languages, unsupported)
    {
      var e := events[k];
      ghost var after := events[..k + 1];
      TakeSnoc(events, k);
      sources, languages, unsupported := ReadOption(e, before, after, sources, languages, unsupported);
      k, before := k + 1, after;
    }
    forall j | 0 <= j < k
      ensures Recognized(events[j], Letters)
    {
      assert events[j] == before[j];
    }
  }

  /** The -S value, languages and warnings of the options read so far. */
  ghost predicate ReadSoFar(before: seq<Event>, sources: string, languages: Languages, unsupported: seq<string>) {
    && sources == (match LastArg(before, 'S') case Some(s) => s case None => "src")
    && languages == EnableAll(NoLanguages, LanguageItems(before))
    && unsupported == Unsupported(LanguageItems(before))
  }

  /** One recognized option: -S replaces the sources, -l enables and warns. */
  method ReadOption(e: Event, ghost before: seq<Event>, ghost after: seq<Event>, sources: string, languages: Languages, unsupported: seq<string>)
    returns (sources': string, languages': Languages, unsupported': seq<string>)
    requires e.Opt? && (e.letter == 'S' || e.letter == 'l') && after == before + [e]
    requires ReadSoFar(before, sources, languages, unsupported)
    ensures ReadSoFar(after, sources', languages', unsupported')
  {
    LastArgSnoc(before, e, 'S');
    LanguageItemsSnoc(before, e);
    if e.letter == 'S' {
      sources', languages', unsupported' := e.arg, languages, unsupported;
      assert LanguageItems(before) + [] == LanguageItems(before);
    } else {
      var more, warned := EnableLanguages(languages, e.arg);
      LanguagesStep(LanguageItems(before), Tokens(e.arg), languages, more, unsupported, warned);
      sources', languages', unsupported' := sources, more, unsupported + warned;
    }
  }

  /** hvn_cfgen_parse_args: the options, then at most one operand naming
      the script. */
  method ParseArgs(events: seq<Event>, operands: seq<string>) returns (r: Parsed)
    ensures r == Parse(events, operands)
  {
    var k, sources, languages, unsupported := ReadOptions(events);
    if k < |events| {
      ParseRejects(events, operands, k);
      return UsageError(unsupported, Complaint(events[k]));
    }
    ParseAccepted(events, operands, events[..k]);
    if |operands| > 1 {
      return UsageError(unsupported, "Too many output files");
    }
    var filename := if |operands| == 0 then "configure" else operands[0];
    r := Parsed(Config(sources, languages, unsupported), filename);
  }

  /** After every option was read: the operands decide. */
  lemma ParseAccepted(events: seq<Event>, operands: seq<string>, before: seq<Event>)
    requires before == events[..|events|]
    requires forall j | 0 <= j < |events| :: Recognized(events[j], Letters)
    ensures before == events
    ensures |operands| > 1 ==> Parse(events, operands) == UsageError(Unsupported(LanguageItems(before)), "Too many output files")
    ensures |operands| <= 1 ==>
      var items := LanguageItems(before);
      Parse(events, operands) ==
        Parsed(Config(match LastArg(before, 'S') case Some(s) => s case None => "src", EnableAll(NoLanguages, items), Unsupported(items)),
          if |operands| == 0 then "configure" else operands[0])
  {
    assert before == events;
    assert FirstUnrecognized(events, Letters) == |events|;
  }

  // ---------------------------------------------------------------------
  // The module macros (hvn_cfgen_print_macros and its three printers)

  /** Directory entries whose name begins with '.' are skipped. */
  predicate Visible(name: string) {
    name == [] || name[0] != '.'
  }

  /** The macros of a directory listing, in listing order. */
  function Macros(modules: seq<string>): seq<string> {
    if modules == [] then []
    else
      var last := modules[|modules| - 1];
      Macros(modules[..|modules| - 1]) + if Visible(last) then [Macro.NameAsWritten(last)] else []
  }

  lemma MacrosSnoc(modules: seq<string>, name: string)
    ensures Macros(modules + [name]) == Macros(modules) + if Visible(name) then [Macro.NameAsWritten(name)] else []
  {
    assert (modules + [name])[..|modules|] == modules;
  }

  /** Every visible module contributes its macro. */
  lemma {:induction false} MacrosComplete(modules: seq<string>, i: nat)
    requires i < |modules| && Visible(modules[i])
    ensures Macro.NameAsWritten(modules[i]) in Macros(modules)
  {
    var init := modules[..|modules| - 1];
    if i < |init| {
      assert init[i] == modules[i];
      MacrosComplete(init, i);
    }
  }

  /** Every macro comes from a visible module. */
  lemma {:induction false} MacrosSound(modules: seq<string>, m: string)
    requires m in Macros(modules)
    ensures exists i | 0 <= i < |modules| :: Visible(modules[i]) && Macro.NameAsWritten(modules[i]) == m
  {
    var init := modules[..|modules| - 1];
    if m in Macros(init) {
      MacrosSound(init, m);
      var i :| 0 <= i < |init| && Visible(init[i]) && Macro.NameAsWritten(init[i]) == m;
      assert modules[i] == init[i];
    }
  }

  datatype Phase = Intro | Search | Outro

  /** The line each pass prints for a macro M: "  M" in the help text,
      `[ -z "${M}" ] && M=""` in the search part, `M=${M}` in the Makefile
      head. */
  function Line(phase: Phase, m: string): string {
    match phase
    case Intro => "  " + m + "\n"
    case Search => "[ -z \"${" + m + "}\" ] && " + m + "=\"\"\n"
    case Outro => m + "=${" + m + "}\n"
  }

  /** Different macros print different lines in every pass. */
  lemma LineInjective(phase: Phase, a: string, b: string)
    requires Line(phase, a) == Line(phase, b)
    ensures a == b
  {
    var la, lb := Line(phase, a), Line(phase, b);
    match phase
    case Intro =>
      assert la[2..|la| - 1] == a && lb[2..|lb| - 1] == b;
    case Search =>
      assert |la| == 2 * |a| + 20 && |lb| == 2 * |b| + 20;
      assert la[8..8 + |a|] == a && lb[8..8 + |b|] == b;
    case Outro =>
      assert |la| == 2 * |a| + 5 && |lb| == 2 * |b| + 5;
      assert la[..|a|] == a && lb[..|b|] == b;
  }

  /** The Makefile-head line assigns the macro: the name before its first
      '=' is the macro itself. */
  lemma OutroLineReadsBack(name: string)
    ensures UpToFirst(Line(Outro, Macro.NameAsWritten(name)), '=') == Macro.NameAsWritten(name)
  {
    var m := Macro.NameAsWritten(name);
    var line := Line(Outro, m);
    assert '=' !in m by {
      forall i | 0 <= i < |m| ensures m[i] != '=' {
        assert IsUpper(m[i]) || IsDigit(m[i]) || m[i] == '_' || '!' <= m[i] <= ':';
      }
    }
    assert line[..|m|] == m && line[|m|] == '=';
    IndexOfAt(line, '=', |m|);
  }

  // ---------------------------------------------------------------------
  // The script

  const SearchCC := "clang gcc tcc cc"
  const SearchAS := "as gas " + SearchCC
  const SearchCXX := "clang++ g++"

  /** What the script says and does for one language, in each part. */
  function Tool(language: Language): string {
    match language case C => "CC" case Asm => "AS" case Cxx => "CXX"
  }

  /** The flags variable of each tool: C's is CFLAGS, not CCFLAGS. */
  function ToolFlags(language: Language): string {
    match language case C => "CFLAGS" case Asm => "ASFLAGS" case Cxx => "CXXFLAGS"
  }

  function ToolName(language: Language): string {
    match language case C => "C compiler" case Asm => "Assembly compiler" case Cxx => "C++ compiler"
  }

  function ToolSearch(language: Language): string {
    match language case C => SearchCC case Asm => SearchAS case Cxx => SearchCXX
  }

  function DebugFlags(language: Language): string {
    match language case C => "-g -Wall -fPIC" case Asm => "" case Cxx => "-g -Wall -fPIC -std=c++11"
  }

  function ReleaseFlags(language: Language): string {
    match language case C => "-O -Wall -fPIC -DNDEBUG" case Asm => "" case Cxx => "-O -Wall -fPIC -std=c++11 -DNDEBUG"
  }

  /** The help lines of a language. */
  function IntroHas(language: Language): string {
    match language
    case C =>
      "  CC               C compiler to use, default [" + SearchCC + "].\n" +
      "  CFLAGS           C compiler flags [" + ReleaseFlags(C) + "] when -r specified, [" + DebugFlags(C) + "] else.\n"
    case Asm =>
      "  AS               Assembly compiler to use, default [" + SearchAS + "].\n" +
      "  ASFLAGS          Assembly compiler flags [" + ReleaseFlags(Asm) + "] when -r specified, [" + DebugFlags(Asm) + "] else.\n"
    case Cxx =>
      "  CXX              C compiler to use, default [" + SearchCXX + "].\n" +
      "  CXXFLAGS         C compiler flags [" + ReleaseFlags(Cxx) + "] when -r specified, [" + DebugFlags(Cxx) + "] else.\n"
  }

  /** Look for the first tool of a list that the shell can run, unless the
      variable is already set, and stop the script if none is found. */
  function SearchTool(toolName: string, tool: string, search: string): string {
    "\nif [ -z \"${" + tool + "}\" ]\nthen\n\tfor " + tool + " in " + search + "\n" +
    "\tdo command -v \"${" + tool + "}\" && break\n\tdone\nfi\n\n" +
    "if [ ! -z \"${" + tool + "}\" ]\n" +
    "then printf \"Using " + toolName + " '%s'\\n\" \"${" + tool + "}\"\n" +
    "else printf 'Unable to find " + toolName + "\\n' ; exit 1\nfi\n"
  }

  /** Default the flags variable to the debug or the release flags. */
  function SearchFlags(toolName: string, toolFlags: string, debug: string, release: string): string {
    "\nif [ -z \"${" + toolFlags + "}\" ]\nthen\n\tif [ -z \"${NDEBUG}\" ]\n" +
    "\tthen " + toolFlags + "='" + debug + "'\n" +
    "\telse " + toolFlags + "='" + release + "'\n\tfi\nfi\n" +
    "printf \"Using " + toolName + " flags '%s'\\n\" \"${" + toolFlags + "}\"\n"
  }

  const Shebang := "#!/bin/sh\n"

  const IntroBeginText := Shebang + IntroHelp

  const IntroHelp :=
    "\nwhile getopts hrd opt\ndo\n\tcase $opt in\n\th) cat <<EOF\n" +
    "\\`configure' configures this package to adapt to many kinds of systems.\n\n" +
    "Usage: ./configure [-h] [-r|-d] [VAR=VALUE]...\n\n" +
    "To assign environment variables (e.g., CC, CFLAGS...), specify them as\n" +
    "VAR=VALUE.  See below for descriptions of some of the useful variables.\n\n" +
    "Defaults for the options are specified in brackets.\n\n" +
    "Configuration:\n  -h               display this help and exit\n\n" +
    "Optional Features:\n  -d               configure a debug build (default)\n" +
    "  -r               configure a release build\n\n" +
    "Some influential environment variables:\n" +
    "  BINARIES         where binary executables are built.\n" +
    "  LIBRARIES        where libraries are built.\n" +
    "  OBJECTS          where intermediate object files are built.\n" +
    "  MKDIR            tool used to create objects subdirectories.\n" +
    "  LD               linker to use.\n" +
    "  LDFLAGS          arguments to pass to the linker.\n"

  const IntroEndText :=
    "\nUse these variables to override the choices made by \\`configure' or to help\n" +
    "it to find libraries and programs with nonstandard names/locations.\n\n" +
    "Report bugs to the package provider.\nEOF\n\t\texit 1 ;;\n" +
    "\tr) NDEBUG=\"${opt}\" ;;\n\td) unset NDEBUG ;;\n" +
    "\t?) echo \"Unknown option: ${opt}\" ;;\n\tesac\ndone\n\n" +
    "shift $((OPTIND - 1))\n[ ! -z \"$*\" ] && export -- \"$@\"\n\n" +
    "case \"`uname -s`\" in\n" +
    "Darwin) [ -z \"${LDFLAGS}\" ] && LDFLAGS='-lSystem' ;;\n" +
    "Linux) [ -z \"${LDFLAGS}\" ] && LDFLAGS='-lc' ;;\n" +
    "*) printf 'Unsupported operating system\\n' && exit 1 ;;\nesac\n"

  const OutroBeginText :=
    "\n[ -z \"${BINARIES}\" ] && BINARIES=\"build/bin\"\n" +
    "[ -z \"${LIBRARIES}\" ] && LIBRARIES=\"build/lib\"\n" +
    "[ -z \"${OBJECTS}\" ] && OBJECTS=\"build/objects\"\n" +
    "mkdir -p \"${BINARIES}\" \"${LIBRARIES}\" \"${OBJECTS}\"\n\n" +
    "cat - Makefile.rules <<EOF > Makefile\n" +
    "BINARIES=${BINARIES}\nLIBRARIES=${LIBRARIES}\nOBJECTS=${OBJECTS}\n\n" +
    "MKDIR=${MKDIR}\nLD=${LD}\nLDFLAGS=${LDFLAGS}\n"

  const OutroEndText := "\nEOF"

  /** The blocks of the script. */
  datatype Part =
    | IntroBegin | IntroEnd
    | SearchMkdir | SearchLinker
    | OutroBegin | OutroEnd
    | Newline(phase: Phase)
    | LanguagePart(phase: Phase, language: Language)
    | MacroPart(phase: Phase, macro: string)

  function Text(part: Part): string {
    match part
    case IntroBegin => IntroBeginText
    case IntroEnd => IntroEndText
    case SearchMkdir => SearchTool("mkdir", "MKDIR", "mkdir")
    case SearchLinker => SearchTool("linker", "LD", "ld gold")
    case OutroBegin => OutroBeginText
    case OutroEnd => OutroEndText
    case Newline(_) => "\n"
    case LanguagePart(Intro, l) => IntroHas(l)
    case LanguagePart(Search, l) => SearchBlock(l)
    case LanguagePart(Outro, l) => OutroLines(l)
    case MacroPart(phase, m) => Line(phase, m)
  }

  /** SEARCH_TOOL_AND_FLAGS for one language. */
  function SearchBlock(l: Language): string {
    SearchTool(ToolName(l), Tool(l), ToolSearch(l)) + SearchFlags(ToolName(l), ToolFlags(l), DebugFlags(l), ReleaseFlags(l))
  }

  /** OUTRO_MACRO of the tool, then of its flags. */
  function OutroLines(l: Language): string {
    Line(Outro, Tool(l)) + Line(Outro, ToolFlags(l))
  }

  /** Each language's search block and outro lines use the source's
      names: the C compiler is CC with CFLAGS (not CCFLAGS), the assembler
      AS with ASFLAGS, the C++ compiler CXX with CXXFLAGS. */
  lemma SearchVariables()
    ensures SearchBlock(C) == SearchTool("C compiler", "CC", SearchCC) + SearchFlags("C compiler", "CFLAGS", DebugFlags(C), ReleaseFlags(C))
    ensures SearchBlock(Asm) == SearchTool("Assembly compiler", "AS", SearchAS) + SearchFlags("Assembly compiler", "ASFLAGS", DebugFlags(Asm), ReleaseFlags(Asm))
    ensures SearchBlock(Cxx) == SearchTool("C++ compiler", "CXX", SearchCXX) + SearchFlags("C++ compiler", "CXXFLAGS", DebugFlags(Cxx), ReleaseFlags(Cxx))
  {
  }

  /** With -l C the outro writes "CC=${CC}" and "CFLAGS=${CFLAGS}". */
  lemma OutroTextC()
    ensures OutroLines(C) == "CC=${CC}\nCFLAGS=${CFLAGS}\n"
  {
    OutroVariables();
  }

  lemma OutroVariables()
    ensures OutroLines(C) == Line(Outro, "CC") + Line(Outro, "CFLAGS")
    ensures OutroLines(Asm) == Line(Outro, "AS") + Line(Outro, "ASFLAGS")
    ensures OutroLines(Cxx) == Line(Outro, "CXX") + Line(Outro, "CXXFLAGS")
  {
  }

  function PhaseOf(part: Part): Phase {
    match part
    case IntroBegin => Intro
    case IntroEnd => Intro
    case SearchMkdir => Search
    case SearchLinker => Search
    case OutroBegin => Outro
    case OutroEnd => Outro
    case Newline(phase) => phase
    case LanguagePart(phase, _) => phase
    case MacroPart(phase, _) => phase
  }

  function Rank(phase: Phase): nat {
    match phase case Intro => 0 case Search => 1 case Outro => 2
  }

  function LanguageRank(language: Language): nat {
    match language case C => 0 case Asm => 1 case Cxx => 2
  }

  /** The blocks of the enabled languages, C then assembly then C++. */
  function LanguageParts(phase: Phase, languages: Languages): seq<Part> {
    (if languages.hasC then [LanguagePart(phase, C)] else []) +
    (if languages.hasAsm then [LanguagePart(phase, Asm)] else []) +
    (if languages.hasCxx then [LanguagePart(phase, Cxx)] else [])
  }

  function MacroParts(phase: Phase, macros: seq<string>): (r: seq<Part>)
    ensures |r| == |macros|
  {
    seq(|macros|, i requires 0 <= i < |macros| => MacroPart(phase, macros[i]))
  }

  function IntroParts(languages: Languages, macros: seq<string>): seq<Part> {
    [IntroBegin] + LanguageParts(Intro, languages) + MacroParts(Intro, macros) + [IntroEnd]
  }

  function SearchParts(languages: Languages, macros: seq<string>): seq<Part> {
    LanguageParts(Search, languages) + [SearchMkdir, SearchLinker, Newline(Search)] + MacroParts(Search, macros)
  }

  function OutroParts(languages: Languages, macros: seq<string>): seq<Part> {
    [OutroBegin] + LanguageParts(Outro, languages) + [Newline(Outro)] + MacroParts(Outro, macros) + [OutroEnd]
  }

  /** The whole script: the help text, the tool search, the Makefile head. */
  function Script(languages: Languages, macros: seq<string>): seq<Part> {
    IntroParts(languages, macros) + SearchParts(languages, macros) + OutroParts(languages, macros)
  }

  predicate AllIn(parts: seq<Part>, phase: Phase) {
    forall i | 0 <= i < |parts| :: PhaseOf(parts[i]) == phase
  }

  lemma LanguagePartsFacts(phase: Phase, languages: Languages)
    ensures AllIn(LanguageParts(phase, languages), phase)
    ensures forall i | 0 <= i < |LanguageParts(phase, languages)| :: LanguageParts(phase, languages)[i].LanguagePart?
    ensures forall l :: LanguagePart(phase, l) in LanguageParts(phase, languages) <==> Has(languages, l)
  {
  }

  /** Within each part the languages come in the order C, assembly, C++,
      each at most once. */
  lemma LanguagePartsOrdered(phase: Phase, languages: Languages, i: nat, j: nat)
    requires i < j < |LanguageParts(phase, languages)|
    ensures LanguageRank(LanguageParts(phase, languages)[i].language) < LanguageRank(LanguageParts(phase, languages)[j].language)
  {
  }

  lemma MacroPartsFacts(phase: Phase, macros: seq<string>)
    ensures AllIn(MacroParts(phase, macros), phase)
    ensures forall m :: MacroPart(phase, m) in MacroParts(phase, macros) <==> m in macros
  {
    var parts := MacroParts(phase, macros);
    forall m ensures MacroPart(phase, m) in parts <==> m in macros {
      if m in macros {
        var i :| 0 <= i < |macros| && macros[i] == m;
        assert parts[i] == MacroPart(phase, m);
      }
    }
  }

  lemma AllInAppend(a: seq<Part>, b: seq<Part>, phase: Phase)
    requires AllIn(a, phase) && AllIn(b, phase)
    ensures AllIn(a + b, phase)
  {
    forall i | 0 <= i < |a + b| ensures PhaseOf((a + b)[i]) == phase {
      if i >= |a| {
        assert (a + b)[i] == b[i - |a|];
      }
    }
  }

  lemma PartsPhases(languages: Languages, macros: seq<string>)
    ensures AllIn(IntroParts(languages, macros), Intro)
    ensures AllIn(SearchParts(languages, macros), Search)
    ensures AllIn(OutroParts(languages, macros), Outro)
  {
    LanguagePartsFacts(Intro, languages);
    LanguagePartsFacts(Search, languages);
    LanguagePartsFacts(Outro, languages);
    MacroPartsFacts(Intro, macros);
    MacroPartsFacts(Search, macros);
    MacroPartsFacts(Outro, macros);
    AllInAppend([IntroBegin], LanguageParts(Intro, languages), Intro);
    AllInAppend([IntroBegin] + LanguageParts(Intro, languages), MacroParts(Intro, macros), Intro);
    AllInAppend([IntroBegin] + LanguageParts(Intro, languages) + MacroParts(Intro, macros), [IntroEnd], Intro);
    AllInAppend(LanguageParts(Search, languages), [SearchMkdir, SearchLinker, Newline(Search)], Search);
    AllInAppend(LanguageParts(Search, languages) + [SearchMkdir, SearchLinker, Newline(Search)], MacroParts(Search, macros), Search);
    AllInAppend([OutroBegin], LanguageParts(Outro, languages), Outro);
    AllInAppend([OutroBegin] + LanguageParts(Outro, languages), [Newline(Outro)], Outro);
    AllInAppend([OutroBegin] + LanguageParts(Outro, languages) + [Newline(Outro)], MacroParts(Outro, macros), Outro);
    AllInAppend([OutroBegin] + LanguageParts(Outro, languages) + [Newline(Outro)] + MacroParts(Outro, macros), [OutroEnd], Outro);
  }

  /** The help text comes first, then the tool search, then the Makefile
      head: no block of a later part precedes one of an earlier part. */
  lemma ScriptPhases(languages: Languages, macros: seq<string>, i: nat, j: nat)
    requires i <= j < |Script(languages, macros)|
    ensures Rank(PhaseOf(Script(languages, macros)[i])) <= Rank(PhaseOf(Script(languages, macros)[j]))
  {
    var a, b, c := IntroParts(languages, macros), SearchParts(languages, macros), OutroParts(languages, macros);
    PartsPhases(languages, macros);
    var s := Script(languages, macros);
    assert s == a + b + c;
    assert Rank(PhaseOf(s[i])) == (if i < |a| then 0 else if i < |a| + |b| then 1 else 2) by {
      if i < |a| { assert s[i] == a[i]; }
      else if i < |a| + |b| { assert s[i] == b[i - |a|]; }
      else { assert s[i] == c[i - |a| - |b|]; }
    }
    assert Rank(PhaseOf(s[j])) == (if j < |a| then 0 else if j < |a| + |b| then 1 else 2) by {
      if j < |a| { assert s[j] == a[j]; }
      else if j < |a| + |b| { assert s[j] == b[j - |a|]; }
      else { assert s[j] == c[j - |a| - |b|]; }
    }
  }

  /** The blocks of one part of the script. */
  function PartOf(phase: Phase, languages: Languages, macros: seq<string>): seq<Part> {
    match phase
    case Intro => IntroParts(languages, macros)
    case Search => SearchParts(languages, macros)
    case Outro => OutroParts(languages, macros)
  }

  /** A block is in the script exactly when it is in the part of its
      phase. */
  lemma InOwnPart(languages: Languages, macros: seq<string>, p: Part)
    ensures p in Script(languages, macros) <==> p in PartOf(PhaseOf(p), languages, macros)
  {
    var a, b, c := IntroParts(languages, macros), SearchParts(languages, macros), OutroParts(languages, macros);
    PartsPhases(languages, macros);
    assert Script(languages, macros) == a + b + c;
    if p in a {
      var i :| 0 <= i < |a| && a[i] == p;
    } else if p in b {
      var i :| 0 <= i < |b| && b[i] == p;
    } else if p in c {
      var i :| 0 <= i < |c| && c[i] == p;
    }
  }

  /** Only macro blocks are made by MacroParts. */
  lemma NotMacroPart(phase: Phase, macros: seq<string>, p: Part)
    requires !p.MacroPart?
    ensures p !in MacroParts(phase, macros)
  {
  }

  /** A language has its blocks in a part exactly when it is enabled. */
  lemma ScriptLanguages(languages: Languages, macros: seq<string>, phase: Phase, l: Language)
    ensures LanguagePart(phase, l) in Script(languages, macros) <==> Has(languages, l)
  {
    var p := LanguagePart(phase, l);
    InOwnPart(languages, macros, p);
    LanguagePartsFacts(phase, languages);
    NotMacroPart(phase, macros, p);
  }

  /** Every macro has its line in every part, and no other macro does. */
  lemma ScriptMacros(languages: Languages, macros: seq<string>, phase: Phase, m: string)
    ensures MacroPart(phase, m) in Script(languages, macros) <==> m in macros
  {
    var p := MacroPart(phase, m);
    InOwnPart(languages, macros, p);
    MacroInOwnPart(languages, macros, phase, m);
    MacroPartIn(phase, macros, m);
  }

  /** Within its own part, a macro's block can only come from the macro
      blocks. */
  lemma MacroInOwnPart(languages: Languages, macros: seq<string>, phase: Phase, m: string)
    ensures MacroPart(phase, m) in PartOf(phase, languages, macros) <==> MacroPart(phase, m) in MacroParts(phase, macros)
  {
    NotLanguagePart(phase, languages, MacroPart(phase, m));
  }

  lemma MacroPartIn(phase: Phase, macros: seq<string>, m: string)
    ensures MacroPart(phase, m) in MacroParts(phase, macros) <==> m in macros
  {
    MacroPartsFacts(phase, macros);
  }

  /** Only language blocks are made by LanguageParts. */
  lemma NotLanguagePart(phase: Phase, languages: Languages, p: Part)
    requires !p.LanguagePart?
    ensures p !in LanguageParts(phase, languages)
  {
  }

  /** Both together, for every language and macro. */
  lemma ScriptContents(languages: Languages, macros: seq<string>, phase: Phase)
    ensures forall l :: LanguagePart(phase, l) in Script(languages, macros) <==> Has(languages, l)
    ensures forall m :: MacroPart(phase, m) in Script(languages, macros) <==> m in macros
  {
    forall l ensures LanguagePart(phase, l) in Script(languages, macros) <==> Has(languages, l) {
      ScriptLanguages(languages, macros, phase, l);
    }
    forall m ensures MacroPart(phase, m) in Script(languages, macros) <==> m in macros {
      ScriptMacros(languages, macros, phase, m);
    }
  }

  /** The text of a sequence of blocks, each written by `write`. */
  function Render(parts: seq<Part>, write: Part -> string): string {
    if parts == [] then "" else write(parts[0]) + Render(parts[1..], write)
  }

  lemma {:induction false} RenderAppend(a: seq<Part>, b: seq<Part>, write: Part -> string)
    ensures Render(a + b, write) == Render(a, write) + Render(b, write)
  {
    if a == [] {
      assert a + b == b;
    } else {
      RenderAppend(a[1..], b, write);
      assert (a + b)[1..] == a[1..] + b;
      assert (a + b)[0] == a[0];
      calc {
        Render(a + b, write);
        write(a[0]) + Render(a[1..] + b, write);
        write(a[0]) + (Render(a[1..], write) + Render(b, write));
      }
    }
  }

  lemma RenderOne(p: Part, write: Part -> string)
    ensures Render([p], write) == write(p)
  {
    assert [p][1..] == [];
  }

  /** Text already written for some blocks, followed by the text of more
      blocks, is the text of all of them. */
  lemma Extend(parts: seq<Part>, text: string, more: seq<Part>, moreText: string)
    requires text == Render(parts, Text) && moreText == Render(more, Text)
    ensures text + moreText == Render(parts + more, Text)
  {
    RenderAppend(parts, more, Text);
  }

  lemma ExtendOne(parts: seq<Part>, text: string, p: Part)
    requires text == Render(parts, Text)
    ensures text + Text(p) == Render(parts + [p], Text)
  {
    RenderOne(p, Text);
    Extend(parts, text, [p], Text(p));
  }

  /** The text of blocks begins with the text of the first block and ends
      with the text of the last. */
  lemma RenderEnds(parts: seq<Part>, write: Part -> string)
    requires parts != []
    ensures var text, first, last := Render(parts, write), write(parts[0]), write(parts[|parts| - 1]);
      |first| <= |text| && text[..|first|] == first && |last| <= |text| && text[|text| - |last|..] == last
  {
    var n := |parts|;
    var last := parts[n - 1];
    assert parts == parts[..n - 1] + [last];
    RenderAppend(parts[..n - 1], [last], write);
    RenderOne(last, write);
    var init := Render(parts[..n - 1], write);
    assert (init + write(last))[|init + write(last)| - |write(last)|..] == write(last);
    var first := write(parts[0]);
    assert (first + Render(parts[1..], write))[..|first|] == first;
  }

  /** The script opens with the help text's first block and closes with the
      Makefile head's last. */
  lemma ScriptEnds(languages: Languages, macros: seq<string>)
    ensures var s := Script(languages, macros); s != [] && s[0] == IntroBegin && s[|s| - 1] == OutroEnd
  {
    var a, b, c := IntroParts(languages, macros), SearchParts(languages, macros), OutroParts(languages, macros);
    var s := a + b + c;
    assert s[0] == a[0] == IntroBegin;
    assert s[|s| - 1] == c[|c| - 1] == OutroEnd;
  }

  /** The script is a shell script, and it ends by closing the
      here-document that writes the Makefile head: its text begins with
      the text of IntroBegin and ends with that of OutroEnd, whatever the
      languages and modules. */
  lemma ScriptFrame(languages: Languages, macros: seq<string>, write: Part -> string)
    ensures var text, first, last := Render(Script(languages, macros), write), write(IntroBegin), write(OutroEnd);
      StartsWith(text, first) && |last| <= |text| && text[|text| - |last|..] == last
  {
    ScriptEnds(languages, macros);
    RenderEnds(Script(languages, macros), write);
  }

  /** The texts ScriptFrame puts first and last: the head starts with the
      "#!/bin/sh" line and the end closes the here-document with "EOF". */
  lemma FrameTexts()
    ensures StartsWith(Text(IntroBegin), "#!/bin/sh\n")
    ensures Text(OutroEnd) == "\nEOF"
  {
    StartsWithJoin(Shebang, IntroHelp);
  }

  lemma StartsWithJoin(a: string, b: string)
    ensures StartsWith(a + b, a)
  {
    assert (a + b)[..|a|] == a;
  }

  // ---------------------------------------------------------------------
  // The generator (main and hvn_cfgen_print_macros)

  /** One pass over the directory listing: every visible module's macro,
      built in a buffer by the shared character loop, printed by the
      pass's printer. */
  method PrintMacros(phase: Phase, modules: seq<string>) returns (text: string)
    ensures text == Render(MacroParts(phase, Macros(modules)), Text)
  {
    text := "";
    var i := 0;
    ghost var before: seq<string> := [];
    while i != |modules|
      invariant 0 <= i <= |modules| && before == modules[..i]
      invariant text == Render(MacroParts(phase, Macros(before)), Text)
    {
      var name := modules[i];
      ghost var after := modules[..i + 1];
      TakeSnoc(modules, i);
      MacrosSnoc(before, name);
      if name == [] || name[0] != '.' {
        var macro := new char[|name| + |Macro.Suffix| + 1];
        Macro.Fill(macro, name);
        var m := macro[..|name| + |Macro.Suffix|];
        MacroPartsSnoc(phase, Macros(before), m, Text);
        text := text + Text(MacroPart(phase, m));
      } else {
        assert Macros(after) == Macros(before);
      }
      i, before := i + 1, after;
    }
    assert before == modules;
  }

  lemma MacroPartsSnoc(phase: Phase, macros: seq<string>, m: string, write: Part -> string)
    ensures Render(MacroParts(phase, macros + [m]), write) == Render(MacroParts(phase, macros), write) + write(MacroPart(phase, m))
  {
    assert MacroParts(phase, macros + [m]) == MacroParts(phase, macros) + [MacroPart(phase, m)];
    RenderAppend(MacroParts(phase, macros), [MacroPart(phase, m)], write);
    RenderOne(MacroPart(phase, m), write);
  }

  /** The text of the language blocks of a part: each enabled language's
      block, C then assembly then C++. */
  lemma LanguagePartsText(phase: Phase, languages: Languages, write: Part -> string)
    ensures Render(LanguageParts(phase, languages), write) ==
      (if languages.hasC then write(LanguagePart(phase, C)) else "") +
      (if languages.hasAsm then write(LanguagePart(phase, Asm)) else "") +
      (if languages.hasCxx then write(LanguagePart(phase, Cxx)) else "")
  {
    var c := if languages.hasC then [LanguagePart(phase, C)] else [];
    var asm := if languages.hasAsm then [LanguagePart(phase, Asm)] else [];
    var cxx := if languages.hasCxx then [LanguagePart(phase, Cxx)] else [];
    RenderAppend(c, asm, write);
    RenderAppend(c + asm, cxx, write);
    RenderOne(LanguagePart(phase, C), write);
    RenderOne(LanguagePart(phase, Asm), write);
    RenderOne(LanguagePart(phase, Cxx), write);
  }

  /** The three conditional blocks of one part. */
  method PrintLanguages(phase: Phase, languages: Languages) returns (text: string)
    ensures text == Render(LanguageParts(phase, languages), Text)
  {
    var c, asm, cxx := "", "", "";
    if languages.hasC {
      c := Text(LanguagePart(phase, C));
    }
    if languages.hasAsm {
      asm := Text(LanguagePart(phase, Asm));
    }
    if languages.hasCxx {
      cxx := Text(LanguagePart(phase, Cxx));
    }
    LanguagePartsText(phase, languages, Text);
    text := c + asm + cxx;
  }

  /** INTRO_BEGIN, the help lines of the languages, one line per module,
      INTRO_END. */
  method PrintIntro(languages: Languages, modules: seq<string>) returns (text: string)
    ensures text == Render(IntroParts(languages, Macros(modules)), Text)
  {
    ghost var parts := [IntroBegin];
    RenderOne(IntroBegin, Text);
    text := Text(IntroBegin);
    var more := PrintLanguages(Intro, languages);
    Extend(parts, text, LanguageParts(Intro, languages), more);
    text, parts := text + more, parts + LanguageParts(Intro, languages);
    more := PrintMacros(Intro, modules);
    Extend(parts, text, MacroParts(Intro, Macros(modules)), more);
    text, parts := text + more, parts + MacroParts(Intro, Macros(modules));
    ExtendOne(parts, text, IntroEnd);
    text := text + Text(IntroEnd);
  }

  lemma SearchToolsText()
    ensures Render([SearchMkdir, SearchLinker, Newline(Search)], Text) ==
      Text(SearchMkdir) + Text(SearchLinker) + Text(Newline(Search))
  {
    var tools := [SearchMkdir, SearchLinker, Newline(Search)];
    assert tools == [SearchMkdir] + [SearchLinker] + [Newline(Search)];
    RenderOne(SearchMkdir, Text);
    RenderOne(SearchLinker, Text);
    RenderOne(Newline(Search), Text);
    RenderAppend([SearchMkdir], [SearchLinker], Text);
    RenderAppend([SearchMkdir] + [SearchLinker], [Newline(Search)], Text);
  }

  /** The tool searches of the languages, of mkdir and of the linker, an
      empty line, one line per module. */
  method PrintSearch(languages: Languages, modules: seq<string>) returns (text: string)
    ensures text == Render(SearchParts(languages, Macros(modules)), Text)
  {
    text := PrintLanguages(Search, languages);
    ghost var parts := LanguageParts(Search, languages);
    var tools := Text(SearchMkdir) + Text(SearchLinker) + Text(Newline(Search));
    SearchToolsText();
    Extend(parts, text, [SearchMkdir, SearchLinker, Newline(Search)], tools);
    text, parts := text + tools, parts + [SearchMkdir, SearchLinker, Newline(Search)];
    var more := PrintMacros(Search, modules);
    Extend(parts, text, MacroParts(Search, Macros(modules)), more);
    text, parts := text + more, parts + MacroParts(Search, Macros(modules));
    assert parts == SearchParts(languages, Macros(modules));
  }

  /** OUTRO_BEGIN, the variables of the languages, an empty line, one line
      per module, OUTRO_END. */
  method PrintOutro(languages: Languages, modules: seq<string>) returns (text: string)
    ensures text == Render(OutroParts(languages, Macros(modules)), Text)
  {
    ghost var parts := [OutroBegin];
    RenderOne(OutroBegin, Text);
    text := Text(OutroBegin);
    var more := PrintLanguages(Outro, languages);
    Extend(parts, text, LanguageParts(Outro, languages), more);
    text, parts := text + more, parts + LanguageParts(Outro, languages);
    ExtendOne(parts, text, Newline(Outro));
    text, parts := text + Text(Newline(Outro)), parts + [Newline(Outro)];
    more := PrintMacros(Outro, modules);
    Extend(parts, text, MacroParts(Outro, Macros(modules)), more);
    text, parts := text + more, parts + MacroParts(Outro, Macros(modules));
    ExtendOne(parts, text, OutroEnd);
    text := text + Text(OutroEnd);
  }

  /** The script written for the languages and the directory listing (read
      three times, each time the same). */
  method Generate(languages: Languages, modules: seq<string>) returns (text: string)
    ensures text == Render(Script(languages, Macros(modules)), Text)
  {
    var macros := Macros(modules);
    var intro := PrintIntro(languages, modules);
    var search := PrintSearch(languages, modules);
    var outro := PrintOutro(languages, modules);
    Extend(IntroParts(languages, macros), intro, SearchParts(languages, macros), search);
    Extend(IntroParts(languages, macros) + SearchParts(languages, macros), intro + search, OutroParts(languages, macros), outro);
    text := intro + search + outro;
  }
}
