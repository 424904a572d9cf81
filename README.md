# haven build helpers, modelled in Dafny

haven ships a family of small command-line helpers that prepare, configure and
build C/C++ projects laid out as one directory per module under a sources
directory. This project models those helpers and proves properties of the models:

- `hvn`: the dispatcher, which runs `hvn-<subcommand>`.
- `hvn-init`: creates the sources directory, one directory per target, and a
  hello-world main source.
- `hvn-mkgen`: writes the make rules. These are compile rules per extension,
  object lists, link rules with `-d` dependency lists, and targets under
  `$(BINARIES)` or `$(LIBRARIES)`.
- `hvn-cfgen`: writes the `configure` shell script. Its intro, tool search and
  outro depend on the languages given with `-l` and on the modules' FLAGS macros.
- `hvn-man` and `hvn-web`: the front ends to cmark. The model covers their
  command lines, the names derived from input and output, the render options,
  the `.TH` header, and the head/HTML/tail page order.
- `hvn-pkgen`: builds packages in an isolated root. The model covers its
  command line; the setup steps (clearenv, the log redirection, unshare, the
  uid and gid maps, and the new root with its six bind mounts); the
  environment file loader; and the recipe loop.
- `include/hvn/hvn.h`: the C++ `hvn::module`. It is a set of relative paths
  with a name and a target kind.

How the model is built:

- Command lines are read with getopt(3) and a leading ':' in the option
  string. They are modelled as the sequence of events getopt returns (`Getopt`),
  followed by the operands.
- The operating system is a parameter:
  - `hvn-pkgen` takes an oracle `Call -> Reply` and returns the trace of
    calls it attempted.
  - `hvn-init` threads a `Disk` value through the run.
  - `hvn-web` reads files through a function from names to contents.
  - `hvn` gets a predicate saying whether `execvp` returns.
- Text written to a stream is a returned `string`, and warnings are returned
  as a sequence of messages.
- Where a source file updates memory in place, the model keeps that form:
  - the `hvn_mkgen_array` growth is a class over an `array`;
  - the path buffers filled with `stpncpy` are arrays;
  - `hvn::module` is a class.
- Loops are methods, each proved equal to a specification function. The
  properties are proved about those functions.

## Model

| member | source | states |
|---|---|---|
| CStr.IndexOf | src/hvn-pkgen/main.c:179 | strchr: absent exactly when no character matches; otherwise the first matching index |
| CStr.IndexOfAt | src/hvn-mkgen/main.c:111 | a match with none before it is the index strchr returns |
| CStr.LastIndexOf | src/hvn-mkgen/main.c:181 | strrchr: absent exactly when the character does not occur; otherwise a matching index with no match after it |
| CStr.LastIndexOfAt | src/hvn-mkgen/main.c:181 | a match with none after it is the index strrchr returns |
| CStr.UpToFirst | src/hvn-man/main.c:137-143 | the prefix before the first '.': a prefix free of the character, followed by it when shorter than the string |
| CStr.UpToLast | src/hvn-man/main.c:127-131 | the prefix before the last '.': followed by the character, with no occurrence after that |
| CStr.UpToLastOf | src/hvn-web/main.c:127-132 | cutting `s + c + rest` at its last `c` gives back `s` when `rest` has no `c` |
| CStr.TrimTrailing | src/hvn-man/main.c:126 | basename(3) ignores trailing slashes: what is kept does not end in one, and only slashes were dropped |
| CStr.Basename | src/hvn-man/main.c:126 | basename(3) is never empty and holds '/' only when it is "/" |
| CStr.BasenamePlain | src/hvn-man/main.c:126 | a name without '/' is its own basename |
| CStr.BasenameOfPath | src/hvn-web/main.c:126 | the basename of `dir/file` is `file` |
| CStr.BasenameTruncated | src/hvn-man/main.c:126 | what basename(3) leaves in its argument: a prefix of it, different exactly when it ends in '/' and has a component, and then that component's path without its trailing slashes |
| CStr.BasenameKept | src/hvn-man/main.c:126-136 | the truncated path has the same basename as the original |
| CStr.SlashDropped | src/hvn-man/main.c:136 | a name followed by one '/' is cut back to the name |
| CStr.ToUpper | include/hvn/hvn.h:90 | toupper gives an upper-case letter for a letter and leaves any other character as it is |
| CStr.NatDigits | src/hvn-pkgen/main.c:341 | `%d` of a natural is all digits, with no leading zero |
| CStr.Decimal | src/hvn-pkgen/main.c:292 | `%d` is never empty |
| CStr.NatDigitsValue | src/hvn-pkgen/main.c:341 | the printed digits have the printed value |
| CStr.DecimalReadsBack | src/hvn-man/main.c:151 | strtoul in base 10 reads back the whole of what `%d` printed, and its value |
| CStr.StpNCpy | src/hvn/main.c:24 | stpncpy copies the string at the offset, returns its end, and leaves the rest of the buffer unchanged |
| Getopt.LastArgIsLast | src/hvn-web/main.c:96-113 | an option's value is absent exactly when the option never occurs; otherwise it is the argument of an occurrence |
| Getopt.LastArgAbsent | src/hvn-web/main.c:96-113 | absent exactly when no event carries the option |
| Getopt.LastArgAt | src/hvn-web/main.c:96-113 | the value comes from an occurrence with no later occurrence of the same option |
| Getopt.LastArgSnoc | src/hvn-web/main.c:98-100 | a further occurrence replaces the value; any other event keeps it |
| Getopt.AllArgs | src/hvn-mkgen/main.c:252-254 | each event adds at most one `-d` argument |
| Getopt.AllArgsComplete | src/hvn-mkgen/main.c:252-254 | every `-d` argument is collected |
| Getopt.FirstUnrecognized | src/hvn-web/main.c:96-121 | every event before the returned position is a known option with its argument, and the event at it is not |
| Table.LookupFirst | src/hvn-init/main.c:37-47 | absent exactly when no entry has the name; otherwise the value of the first entry that has it |
| Table.Find | src/hvn-init/main.c:39-46 | the search loop returns that lookup |
| Macro.UpperCaseMangled | src/hvn-mkgen/main.c:52-53 | as written, "Ab" gives "!BFLAGS" where "ABFLAGS" was intended, and no upper-case letter stays a letter (first Findings row) |
| Macro.NameAsWritten | src/hvn-mkgen/main.c:46-64 | the macro both tools print is the name's length plus "FLAGS"; each character is an upper-case letter, a digit, '_' or the punctuation '!' to ':' an upper-case letter turns into |
| Macro.AsWrittenAgrees | src/hvn-mkgen/main.c:52-58 | the printed macro is the intended one exactly when the name holds no upper-case letter |
| Macro.AsWrittenPunctuation | src/hvn-mkgen/main.c:52-53 | in the printed macro a ')' comes exactly from an 'I' and a '$' exactly from a 'D' of the name; "Io" gives ")OFLAGS" |
| Macro.MacroChar | src/hvn-mkgen/main.c:52-58 | intended (first Findings row): each character becomes an upper-case letter, a digit or '_'; a letter keeps its identity up to case, and only digits are kept as they are |
| Macro.MacroName | src/hvn-mkgen/main.c:46-64 | intended (first Findings row): the macro is the name's length plus "FLAGS", made of upper-case letters, digits and '_' |
| Macro.MacroNameCaseBlind | src/hvn-cfgen/main.c:182-199 | intended (first Findings row): names that differ only in letter case share a macro; as written they do not ("Ab" and "ab" give "!BFLAGS" and "ABFLAGS") |
| Macro.MacroNameReadsBack | src/hvn-cfgen/main.c:182-199 | for a name of lower-case letters, digits and '_' the printed macro is the intended one, and the name reads back from it character by character |
| Macro.Fill | src/hvn-mkgen/main.c:46-64 | hvn_mkgen_macro_fill, rewriting the buffer in place as written, leaves the printed macro followed by NUL |
| Hvn.Classify | include/hvn/hvn.h:19-24 | an entry is a Library exactly when its name begins with "lib", otherwise an Executable, never a Folder |
| Hvn.ModuleMacro | include/hvn/hvn.h:84-95 | module::macro() is the name's length plus "FLAGS"; letters become upper case and every other character '_' |
| Hvn.ModuleMacroAgrees | include/hvn/hvn.h:84-95 | the header's macro equals the C tools' printed macro exactly when the name holds no digit and no upper-case letter, and their intended macro exactly when it holds no digit |
| Hvn.DigitMacros | include/hvn/hvn.h:88-92 | "lib2d" gives LIB_DFLAGS in the header but LIB2DFLAGS in the C tools |
| Hvn.CaseMacros | include/hvn/hvn.h:88-92 | "Ab" gives ABFLAGS in the header but !BFLAGS in the C tools as written |
| Hvn.RelativeReadsBack | include/hvn/hvn.h:33-49 | every entry is a walked path less the module path, and every walked path is such an entry |
| Hvn.Module.constructor | include/hvn/hvn.h:51-54 | a named, typed, empty module |
| Hvn.Module.Default | include/hvn/hvn.h:51-54 | by default the module is "a.out", an Executable, empty |
| Hvn.Module.FromRange | include/hvn/hvn.h:56-59 | the module holds exactly the elements of the range |
| Hvn.Module.Copy | include/hvn/hvn.h:61-64 | the copy has the same name, kind and entries |
| Hvn.Module.SetType | include/hvn/hvn.h:69-77 | the kind read back is the one set, and the entries are unchanged |
| Hvn.CreateFromPath | include/hvn/hvn.h:33-49 | a fresh module whose entries are the walked paths relative to the module path |
| Hvn.CreateFromEntry | include/hvn/hvn.h:17-31 | a fresh module named after the entry, classified by name, filled only when asked |
| Dispatch.SubcommandPathReadsBack | src/hvn/main.c:21-25 | the path is one longer than both names: the command, '-', then the subcommand |
| Dispatch.SubcommandPathInjective | src/hvn/main.c:21-25 | different subcommands run different programs |
| Dispatch.BuildPath | src/hvn/main.c:21-25 | the buffer of `len(argv[0]) + len(argv[1]) + 2` characters holds the path then NUL |
| Dispatch.RunSubcommand | src/hvn/main.c:14-34 | usage below two arguments; otherwise only argv[1] is replaced by the path, which is executed with argv[1..], and a failed exec names the subcommand and the path |
| Init.TemplateOf | src/hvn-init/main.c:25-47 | ".c" has the C hello world, ".cc" and ".cpp" the C++ one, any other extension none |
| Init.MainPathReadsBack | src/hvn-init/main.c:63-67 | the main path is the module, "/main", then the extension; its basename is "main" and the extension |
| Init.BuildMainPath | src/hvn-init/main.c:63-67 | the buffer of `len(module) + len(extension) + 6` characters holds that path then NUL |
| Init.MkdirCreatesIff | src/hvn-init/main.c:56 | mkdir creates a directory exactly for a path other than "", "." and "..", that does not exist, whose parent directory exists and that is not denied; it adds only that directory, and a failure changes nothing |
| Init.MkdirNeedsParent | src/hvn-init/main.c:123 | with no directory "a", mkdir("a/b") fails with an error other than EEXIST |
| Init.NestedSourcesNeedParent | src/hvn-init/main.c:123-125 | `-S a/b` without "a" ends the run with "Unable to create sources directory a/b" and changes nothing |
| Init.SpecialNamesWarn | src/hvn-init/main.c:56-59 | the targets "", "." and "..", which mkdir refuses, only warn and change nothing |
| Init.InvalidNameUntouched | src/hvn-init/main.c:51-54 | a target holding '/' only warns and changes nothing |
| Init.InitModuleGrows | src/hvn-init/main.c:49-77 | a target removes nothing and keeps the working directory; it adds at most its directory and its main file, and a valid target whose mkdir succeeds gets its directory |
| Init.MainFileIff | src/hvn-init/main.c:56-76 | the main file is written, with the hello world, exactly for a valid new non-"lib" target with a known extension whose file can be created; otherwise no file changes |
| Init.TargetTwice | src/hvn-init/main.c:56-59 | a target named twice warns the second time that its directory cannot be created |
| Init.ParseAcceptsIff | src/hvn-init/main.c:85-116 | accepted exactly when every option is -S or -e with its argument and a target follows |
| Init.ParseRejects | src/hvn-init/main.c:101-107 | the first rejected option decides the warning (an unknown one prints '?') |
| Init.ParseDefaults | src/hvn-init/main.c:87-90 | the sources directory defaults to "src" and the extension to ".c" |
| Init.ParseArgs | src/hvn-init/main.c:85-116 | the option loop computes that parse |
| Init.ExistingSources | src/hvn-init/main.c:123-134 | an existing sources directory is entered and the run succeeds inside it; an empty sources path fails at its mkdir |
| Init.InitAllKeepsCwd | src/hvn-init/main.c:131-134 | creating the targets never changes the working directory |
| Init.UsageTouchesNothing | src/hvn-init/main.c:118-125 | a usage error exits before touching the disk |
| Init.InitModuleStep | src/hvn-init/main.c:49-77 | hvn_init_module, statement by statement, has the effect of the target model |
| Init.InitTargets | src/hvn-init/main.c:131-134 | the loop over the operands has the effect and warnings of initialising every target in order |
| Init.Initialize | src/hvn-init/main.c:118-137 | main has the effect, warnings and exit of the run model |
| Man.FirstRejected | src/hvn-man/main.c:79-122 | every option before the returned position is accepted, and the one at it is not |
| Man.OutputName | src/hvn-man/main.c:124-132 | the output is the input's basename up to its last '.', or the whole basename when it has none |
| Man.PageName | src/hvn-man/main.c:135-144 | the page name is the output's basename up to its first '.' |
| Man.SectionOf | src/hvn-man/main.c:146-155 | the section taken from the output name is never above 8 (0 means none) |
| Man.ParseAcceptsIff | src/hvn-man/main.c:79-122 | accepted exactly when every option is known, with a section in 1..8 and a width in 1..INT_MAX |
| Man.ParseRejects | src/hvn-man/main.c:93-121 | the first rejected option decides the warning |
| Man.ParsedRanges | src/hvn-man/main.c:69-169 | a parse has a section in 1..8 and a width within INT_MAX; the last -p and -s are kept; the last -i is kept, cut by basename when it names the output; the last -o is kept as basename cuts it |
| Man.TrailingSlashOutput | src/hvn-man/main.c:134-136 | `-o name/` writes to `name` |
| Man.TrailingSlashInput | src/hvn-man/main.c:124-126 | without -o, `-i name/` reads `name` |
| Man.ParseDefaults | src/hvn-man/main.c:158-166 | without options the page name is "?" and the section 1 |
| Man.SectionOfName | src/hvn-man/main.c:135-155 | `page.N` names the page `page` and section N when N is in 1..8, none otherwise |
| Man.SectionOfSuffixed | src/hvn-man/main.c:146-155 | a section followed by more text names none |
| Man.FromInput | src/hvn-man/main.c:124-166 | `-i page.N.md` writes `page.N` with page name `page` and section N |
| Man.PageReadsBack | src/hvn-man/main.c:56 | the page starts with `.TH`, the page name and a section that strtoul reads back, then the rendering |
| Man.ParseArgs | src/hvn-man/main.c:69-169 | the option loop and completion, including basename's truncation of the input and output, compute that parse |
| Web.HtmlName | src/hvn-web/main.c:123-136 | the output is the input's basename up to its last '.', then ".html" |
| Web.ParseAcceptsIff | src/hvn-web/main.c:96-121 | accepted exactly when every option is -i, -o, -H or -T with its argument |
| Web.ParseRejects | src/hvn-web/main.c:114-119 | the first rejected option decides the warning |
| Web.ParseOutput | src/hvn-web/main.c:123-136 | an explicit -o is kept; otherwise there is an output exactly when there is an input; the input is kept, cut by basename when it names the output |
| Web.TrailingSlashInput | src/hvn-web/main.c:123-136 | `-i name.ext/` reads `name.ext` and writes `name.html` |
| Web.HtmlNameOf | src/hvn-web/main.c:123-136 | `dir/name.ext` is written to `name.html` |
| Web.Dump | src/hvn-web/main.c:48-67 | a head or tail file adds its contents, or a warning when it does not open |
| Web.Render | src/hvn-web/main.c:69-80 | the page is head, HTML, tail, with the warnings of both dumps |
| Web.RenderOrder | src/hvn-web/main.c:69-80 | the HTML sits between the head's and the tail's contents, and there are no warnings exactly when both files open or are absent |
| Web.ParseArgs | src/hvn-web/main.c:88-139 | the option loop and basename's truncation of the input compute that parse |
| Cmark.OptionOfWithinTable | src/hvn-man/main.c:27-35 | an operand sets only bits of the option table |
| Cmark.NamedOptionSet | src/hvn-man/main.c:177-192 | every named option's bit is set, whatever else is given |
| Cmark.OptionsWithinTable | src/hvn-man/main.c:177-192 | no bit outside the table is ever set |
| Cmark.OptionsFromNames | src/hvn-man/main.c:177-192 | a bit is set only by an operand that names it |
| Cmark.UnknownIgnored | src/hvn-web/main.c:147-162 | an unknown operand changes nothing |
| Cmark.ParseOptions | src/hvn-web/main.c:147-162 | the operand loop ORs in each operand's table bit |
| Mkgen.PtrArray.constructor | src/hvn-mkgen/main.c:70-79 | a new array has capacity 16 and the one element |
| Mkgen.PtrArray.Push | src/hvn-mkgen/main.c:80-91 | appends the element; the capacity doubles exactly when full, and the storage is reallocated only then |
| Mkgen.Append | src/hvn-mkgen/main.c:66-94 | hvn_mkgen_array_append creates the array from NULL or appends in place, keeping capacity as its growth rule says |
| Mkgen.CapacityBounds | src/hvn-mkgen/main.c:66-94 | the capacity holds the count, stays 16 up to 16 elements, and is less than twice the count beyond that |
| Mkgen.TargetReadsBack | src/hvn-mkgen/main.c:96-103 | the target lies under $(LIBRARIES) with ".so" exactly for "lib" names, otherwise under $(BINARIES), and the name reads back |
| Mkgen.TargetInjective | src/hvn-mkgen/main.c:96-103 | two modules never share a target |
| Mkgen.RuleForExtension | src/hvn-mkgen/main.c:32-42 | ".c" compiles with $(CC), ".cc" and ".cpp" with $(CXX), no other extension has a rule |
| Mkgen.PrintRuleExtension | src/hvn-mkgen/main.c:134-148 | prints the rule, or only warns for an unknown extension |
| Mkgen.ObjectNameSplits | src/hvn-mkgen/main.c:180-190 | a file has an object exactly when its last '.' is followed by something; the object is the file up to that '.' then "o" |
| Mkgen.DottedDirectory | src/hvn-mkgen/main.c:181-184 | the last '.' of the whole path counts, so "/m/v1.2/README" has object "/m/v1.o" |
| Mkgen.ObjectsComplete | src/hvn-mkgen/main.c:165-190 | every walked file whose own name does not begin with '.' and that has an object contributes it |
| Mkgen.ObjectsSound | src/hvn-mkgen/main.c:165-190 | every object comes from such a file |
| Mkgen.HiddenSkipped | src/hvn-mkgen/main.c:166 | "/m/.hidden.c" gives no object, while a file inside ".git" does |
| Mkgen.CollectObjects | src/hvn-mkgen/main.c:162-200 | the walk skips entries named with a leading '.' and leaves the objects array NULL exactly when there are no objects, otherwise holding them in walk order |
| Mkgen.ItemsSplit | src/hvn-mkgen/main.c:117-127 | the comma-terminated items, followed by what is left, give back the list |
| Mkgen.ItemsHaveNoComma | src/hvn-mkgen/main.c:117-127 | no item and no leftover holds a ',' |
| Mkgen.TerminatedReadsBack | src/hvn-mkgen/main.c:117-127 | comma-free items written with their commas read back, with nothing left over |
| Mkgen.KeyedList | src/hvn-mkgen/main.c:111-127 | `key=item,` has key `key` and the one item |
| Mkgen.DependenciesSwapped | src/hvn-mkgen/main.c:113 | as written, module "app" with `-d app=libz, -d bin=libq,` gets libq, not libz |
| Mkgen.DependenciesKeyed | src/hvn-mkgen/main.c:105-132 | intended (third Findings row): with the key compared for equality, "app" gets libz |
| Mkgen.DependenciesComplete | src/hvn-mkgen/main.c:105-132 | under either reading of the key test, every item of a list the test selects for the module is a dependency |
| Mkgen.DependenciesSound | src/hvn-mkgen/main.c:105-132 | under either reading of the key test, every dependency comes from a list the test selects |
| Mkgen.OwnKeyIgnoredAsWritten | src/hvn-mkgen/main.c:113 | as written, a list keyed by the module's own name is never taken, and every list whose key has the name's length but differs is |
| Mkgen.TargetsTextAppend | src/hvn-mkgen/main.c:123-124 | the targets printed for two item runs are the two texts, concatenated |
| Mkgen.PrintItems | src/hvn-mkgen/main.c:114-127 | the item loop prints ' ' and the target of each item |
| Mkgen.PrintDependencies | src/hvn-mkgen/main.c:105-132 | prints the targets of the dependencies selected as written (key of the name's length, `strncmp` non-zero), in order |
| Mkgen.LinkCommandMacro | src/hvn-mkgen/main.c:221 | the link command names the printed macro inside `$( )`; the macro closes the reference early exactly when the name holds an 'I', and starts another one exactly when it holds a 'D' |
| Mkgen.LinkCommandIo | src/hvn-mkgen/main.c:221 | the module "Io" links with `$()OFLAGS)`, an empty reference followed by text make does not expand |
| Mkgen.PrintModuleLink | src/hvn-mkgen/main.c:202-224 | without objects only a warning; otherwise target ':' objects, the dependencies selected as written, then the link command with the printed macro |
| Mkgen.PrintObjects | src/hvn-mkgen/main.c:211-215 | prints " $(OBJECTS)" and each object |
| Mkgen.ParseAcceptsIff | src/hvn-mkgen/main.c:239-270 | accepted exactly when every option is -S or -d with its argument and at most one operand follows |
| Mkgen.ParseDefaults | src/hvn-mkgen/main.c:239-275 | sources default to "src", the output file to "Makefile.rules.test", and every -d list is kept |
| Mkgen.ParseRejects | src/hvn-mkgen/main.c:255-260 | the first rejected option decides the warning (an unknown one prints '?') |
| Mkgen.ReadOptions | src/hvn-mkgen/main.c:246-262 | the getopt loop stops at the first unrecognized option, after every earlier one was -S or -d; sources is the last -S argument or "src", and the array holds exactly the -d arguments in order (NULL when there are none) at the capacity its growth rule gives |
| Mkgen.ParseArgs | src/hvn-mkgen/main.c:239-270 | the option loop computes that parse; the -d array is NULL exactly when no list is given |
| Cfgen.TokensWellFormed | src/hvn-cfgen/main.c:229-233 | strtok never yields an empty token or one holding ',' |
| Cfgen.TokensWhole | src/hvn-cfgen/main.c:229-233 | a list without ',' is a single token |
| Cfgen.TokensOfJoined | src/hvn-cfgen/main.c:229-233 | joining non-empty comma-free items with ',' and splitting again gives them back |
| Cfgen.EmptyTokensSkipped | src/hvn-cfgen/main.c:229-233 | a leading comma and a trailing comma each add no token, whatever the list |
| Cfgen.LanguageNames | src/hvn-cfgen/main.c:235-248 | "C", "ASM" and "C++" are recognised in any letter case |
| Cfgen.UnknownLanguageNames | src/hvn-cfgen/main.c:235-250 | other names, such as "cxx" or "", are not languages |
| Cfgen.HasEnable | src/hvn-cfgen/main.c:235-250 | one token enables exactly the language it names, and never disables one |
| Cfgen.EnableAllKeeps | src/hvn-cfgen/main.c:228-251 | an enabled language stays enabled |
| Cfgen.EnableAllNamed | src/hvn-cfgen/main.c:228-251 | a named language ends up enabled |
| Cfgen.EnableAllSource | src/hvn-cfgen/main.c:228-251 | a newly enabled language was named |
| Cfgen.EnableAllIff | src/hvn-cfgen/main.c:228-251 | a language is enabled exactly when it was already, or some token names it |
| Cfgen.UnsupportedIff | src/hvn-cfgen/main.c:250 | a token is warned about exactly when it names no language |
| Cfgen.EnableAllAppend | src/hvn-cfgen/main.c:223-252 | several -l options add up, both in languages and in warnings |
| Cfgen.EnableLanguages | src/hvn-cfgen/main.c:228-252 | the strtok loop enables the named languages and warns for the rest, in order |
| Cfgen.ParseAcceptsIff | src/hvn-cfgen/main.c:212-268 | accepted exactly when every option is -S or -l with its argument and at most one operand follows |
| Cfgen.ParseDefaults | src/hvn-cfgen/main.c:212-273 | sources default to "src", no language is enabled, and the script is "configure" |
| Cfgen.ParseRejects | src/hvn-cfgen/main.c:250-258 | the first rejected option decides the warning, after the "Unsupported language" warnings of the -l items read before it |
| Cfgen.WarnedBeforeRejection | src/hvn-cfgen/main.c:250-258 | `-l foo -x` warns about foo, then about -x |
| Cfgen.ReadOptions | src/hvn-cfgen/main.c:219-259 | the option loop stops at the first rejected option, having kept the last -S and enabled and warned for every -l item before it |
| Cfgen.ReadOption | src/hvn-cfgen/main.c:224-252 | one accepted option: -S replaces the sources, and a -l list enables the languages it names and warns about its other items, as for all options read so far |
| Cfgen.ParseArgs | src/hvn-cfgen/main.c:212-268 | the option loop and the operand check compute that parse, warnings before a usage error included |
| Cfgen.MacrosComplete | src/hvn-cfgen/main.c:171-204 | every module not starting with '.' has its printed macro listed |
| Cfgen.MacrosSound | src/hvn-cfgen/main.c:171-204 | every printed macro belongs to such a module |
| Cfgen.LineInjective | src/hvn-cfgen/main.c:156-169 | within a phase, different macros give different lines |
| Cfgen.OutroLineReadsBack | src/hvn-cfgen/main.c:166-169 | the Makefile line reads back its macro before '=' |
| Cfgen.LanguagePartsFacts | src/hvn-cfgen/main.c:291-301 | each phase has a language block exactly for the enabled languages |
| Cfgen.LanguagePartsOrdered | src/hvn-cfgen/main.c:291-301 | the language blocks come in the order C, assembly, C++ |
| Cfgen.MacroPartsFacts | src/hvn-cfgen/main.c:171-204 | each phase has one macro line exactly for each macro |
| Cfgen.PartsPhases | src/hvn-cfgen/main.c:288-349 | intro, search and outro each hold only their own pieces |
| Cfgen.ScriptPhases | src/hvn-cfgen/main.c:288-349 | the script is the intro, then the search, then the outro |
| Cfgen.InOwnPart | src/hvn-cfgen/main.c:288-349 | a piece occurs in the script exactly when it occurs in its own phase |
| Cfgen.ScriptLanguages | src/hvn-cfgen/main.c:288-349 | a language block is in the script exactly when the language is enabled |
| Cfgen.ScriptMacros | src/hvn-cfgen/main.c:303-347 | a macro line is in the script exactly when the module's macro is |
| Cfgen.ScriptContents | src/hvn-cfgen/main.c:288-349 | both of these, for every language and every macro |
| Cfgen.ScriptEnds | src/hvn-cfgen/main.c:289-349 | the script begins with the intro's head and ends with the outro's end |
| Cfgen.FrameTexts | src/hvn-cfgen/main.c:32-33 | the head ScriptFrame puts first starts with "#!/bin/sh", and the end it puts last is "\nEOF" |
| Cfgen.ScriptFrame | src/hvn-cfgen/main.c:288-349 | whatever each piece writes, the text starts with the head's text and ends with the end's text |
| Cfgen.PrintMacros | src/hvn-cfgen/main.c:171-204 | hvn_cfgen_print_macros writes one line per printed macro of the phase, in listing order |
| Cfgen.PrintLanguages | src/hvn-cfgen/main.c:291-301 | writes the phase's blocks of the enabled languages, whose search and outro blocks use CC/CFLAGS, AS/ASFLAGS and CXX/CXXFLAGS |
| Cfgen.SearchVariables | src/hvn-cfgen/main.c:307-317 | the search block of C looks for CC and fills CFLAGS (not CCFLAGS), that of assembly AS and ASFLAGS, that of C++ CXX and CXXFLAGS |
| Cfgen.OutroVariables | src/hvn-cfgen/main.c:329-341 | the outro of C writes the CC and CFLAGS lines, that of assembly AS and ASFLAGS, that of C++ CXX and CXXFLAGS |
| Cfgen.OutroTextC | src/hvn-cfgen/main.c:332-334 | with C enabled the outro writes "CC=${CC}" and "CFLAGS=${CFLAGS}" |
| Cfgen.PrintIntro | src/hvn-cfgen/main.c:288-305 | writes the intro |
| Cfgen.SearchToolsText | src/hvn-cfgen/main.c:320-324 | the mkdir and linker searches, then a newline |
| Cfgen.PrintSearch | src/hvn-cfgen/main.c:307-327 | writes the search, with the C compiler's flags in CFLAGS |
| Cfgen.PrintOutro | src/hvn-cfgen/main.c:329-349 | writes the outro, with the C compiler's flags in CFLAGS |
| Cfgen.Generate | src/hvn-cfgen/main.c:288-349 | writes the whole script, with the C compiler's flags in CFLAGS |
| Pkgen.ParseAcceptsIff | src/hvn-pkgen/main.c:209-263 | accepted exactly when every option is -l, -a, -d or -t with its argument, -a, -d and -t are given, and a recipe follows |
| Pkgen.ParseRejects | src/hvn-pkgen/main.c:233-238 | the first rejected option decides the warning |
| Pkgen.ParseChecks | src/hvn-pkgen/main.c:242-260 | with known options, the missing-directory checks run in the source's order |
| Pkgen.ParseArgs | src/hvn-pkgen/main.c:209-263 | the option loop computes that parse |
| Pkgen.AttemptSucceedsIff | src/hvn-pkgen/main.c:97-161 | a step sequence succeeds exactly when every call succeeds, and then every call was made |
| Pkgen.AttemptAppend | src/hvn-pkgen/main.c:274-304 | running two sequences runs the second only when the first succeeds |
| Pkgen.AttemptStopsAtFirstFailure | src/hvn-pkgen/main.c:97-161 | the first failing call is the last one made |
| Pkgen.AttemptPrefix | src/hvn-pkgen/main.c:97-161 | the calls made are a prefix of the plan, all but the last successful |
| Pkgen.Step | src/hvn-pkgen/main.c:276-288 | one checked call advances the plan or ends it |
| Pkgen.Log | src/hvn-pkgen/main.c:35-51 | hvn_pkgen_log opens the log, then redirects stdout and stderr, stopping at the first failure |
| Pkgen.IdMapRecordReadsBack | src/hvn-pkgen/main.c:80-85 | the record is "0 ", the id, then " 1" and its NUL; strtoul reads the id back |
| Pkgen.IdMapZero | src/hvn-pkgen/main.c:74-95 | opens the map and writes the whole record, or fails |
| Pkgen.Deny | src/hvn-pkgen/main.c:53-72 | opens setgroups and writes "deny", or fails |
| Pkgen.MountStepsAt | src/hvn-pkgen/main.c:123-138 | mount point i is made at step 2i and mounted at step 2i+1 |
| Pkgen.RootPlanMountAt | src/hvn-pkgen/main.c:111-138 | in the new root's 18 steps, mount point i is made at step 2+2i and mounted at step 3+2i |
| Pkgen.RootPlanEnds | src/hvn-pkgen/main.c:100-158 | umount and the tmpfs come first; chroot, the two symlinks and the chdir come last |
| Pkgen.RootPlanOrder | src/hvn-pkgen/main.c:97-161 | the whole order of the new root's steps |
| Pkgen.RootPlanMountIndex | src/hvn-pkgen/main.c:111-138 | a step is a bind mount exactly at the odd positions from 3 to 13 |
| Pkgen.RootPlanMounts | src/hvn-pkgen/main.c:111-138 | the same, for every step |
| Pkgen.MountFollowsMkdir | src/hvn-pkgen/main.c:123-138 | every mount made follows a successful mkdir of its target |
| Pkgen.MountAll | src/hvn-pkgen/main.c:123-138 | the mount-point loop makes and mounts each point, stopping at the first failure |
| Pkgen.MakeRoot | src/hvn-pkgen/main.c:97-161 | hvn_pkgen_mkroot runs the new root's steps, stopping at the first failure |
| Pkgen.ParseLineAsWritten | src/hvn-pkgen/main.c:173-189 | as written, a line sets the name before its first '=' to everything after it |
| Pkgen.ParseLine | src/hvn-pkgen/main.c:173-189 | intended (second Findings row): with the newline dropped, a line is `name=value` with or without its newline |
| Pkgen.NewlineKeptAsWritten | src/hvn-pkgen/main.c:175-176 | as written, "A=b\n" splits to A and "b\n", and loading it sets A to "b\n" |
| Pkgen.ParseFormatRoundTrip | src/hvn-pkgen/main.c:173-189 | a written `name=value` line reads back as that entry |
| Pkgen.LoadStops | src/hvn-pkgen/main.c:184-188 | after a failing setenv nothing more is loaded |
| Pkgen.LoadLineEffect | src/hvn-pkgen/main.c:174-189 | a line sets only its own name, to everything after the first '=' including the newline |
| Pkgen.LastDefinitionWins | src/hvn-pkgen/main.c:173-191 | the last definition of a name is the one kept, with its value as written |
| Pkgen.SkippedLinesSetNothing | src/hvn-pkgen/main.c:174-180 | empty lines, comments and lines without '=' set nothing |
| Pkgen.LoadEnvironment | src/hvn-pkgen/main.c:163-201 | fails without changes when the file does not open; otherwise loads every line as written and fails exactly when a setenv fails |
| Pkgen.ValidRecipe | src/hvn-pkgen/main.c:314 | a recipe is run exactly when it has no '/' and does not begin with '.' |
| Pkgen.RecipePathConfined | src/hvn-pkgen/main.c:314-319 | a valid recipe's path is "/app/" plus the name, with no '/', "." or ".." after it |
| Pkgen.EscapeRejected | src/hvn-pkgen/main.c:314 | "../escape" is refused |
| Pkgen.OrchestrateSucceedsIff | src/hvn-pkgen/main.c:311-358 | the recipe loop succeeds exactly when every recipe succeeds |
| Pkgen.SuccessTrace | src/hvn-pkgen/main.c:311-358 | on success each recipe prints its start and done lines and is forked and waited for, in order |
| Pkgen.SuccessLength | src/hvn-pkgen/main.c:311-358 | on success, two lines and two calls per recipe |
| Pkgen.RunOneOutcome | src/hvn-pkgen/main.c:312-353 | one recipe succeeds exactly when it is valid, fork and waitpid work, and it exits 0; it makes at most its own fork and wait |
| Pkgen.SuccessHead | src/hvn-pkgen/main.c:321-339 | a successful run starts with the first recipe's fork, wait and two lines |
| Pkgen.SuccessRun | src/hvn-pkgen/main.c:311-358 | a successful run prints and calls exactly the reference sequences |
| Pkgen.StopsAtFirstFailure | src/hvn-pkgen/main.c:311-358 | the first failing recipe decides the exit, and no later recipe is forked |
| Pkgen.OrchestrateStep | src/hvn-pkgen/main.c:311-358 | the loop runs one recipe, then the rest only when it succeeded |
| Pkgen.RunRecipe | src/hvn-pkgen/main.c:312-353 | the loop body computes one recipe's run |
| Pkgen.RunRecipes | src/hvn-pkgen/main.c:311-358 | the loop computes the run of all recipes |
| Pkgen.SetupOrder | src/hvn-pkgen/main.c:274-304 | clearenv, the log, unshare, the uid map, setgroups, the gid map, then the new root |
| Pkgen.IsolationOrder | src/hvn-pkgen/main.c:274-299 | the same order for any log and root steps |
| Pkgen.SetupExitSuccessIff | src/hvn-pkgen/main.c:274-304 | setup exits successfully exactly when every call of the setup plan succeeds |
| Pkgen.Isolate | src/hvn-pkgen/main.c:274-299 | runs clearenv to the gid map, failing with the source's message at the first failing stage |
| Pkgen.Setup | src/hvn-pkgen/main.c:274-304 | runs the setup plan up to its first failure, with the source's message |
| Pkgen.Launch | src/hvn-pkgen/main.c:265-359 | a usage error calls nothing; a setup failure exits with its message; otherwise the environment is loaded, then the recipes run |

## Left out

- I/O buffering, `close`/`fclose`/`free`, and the text that `err(3)` appends
  from `strerror`. Messages are the `err`/`warn` format text only.
- Character strings are `seq<char>`. An embedded NUL, which would end a C string early, is not modelled.
- Dispatch.RunSubcommand: requires `argv[0]`, so the case `argc == 0` is not modelled.
- The tools' `main` functions open directories and files, and exit on
  failure (`opendir`, `fopen`, `chmod` in hvn-cfgen at 356-358). These calls
  are not modelled, and neither is the `opendir` message, which names the
  output file rather than the directory. The module names are a parameter:
  `readdir` order and `rewinddir` are not modelled.
- Memory allocation failures (`malloc`, `realloc`, `strdup`, `strndup`) are not modelled.
- hvn-mkgen: the following are not modelled:
  - the Makefile skeleton (`.PHONY`/`all:` at line 290, and `all:`/`clean:` at 299-309);
  - the fts walk itself, and its order and errors;
  - the directory rules (171-179, including the `%*s` width);
  - the per-file object rule line (186-187);
  - the `fts_open` warning.

  The walk's regular files are a parameter of `Mkgen.CollectObjects`, each
  with its own name as fts gives it.
- hvn-man and hvn-web: the following are not modelled:
  - reading the input in page-sized chunks and read errors;
  - cmark's parsing and rendering (the rendering is a parameter);
  - the exits when the input or output does not open.

  The cmark option bit values come from cmark.h, which is not part of this model.
- `CStr.BasenameTruncated`: a path made only of slashes is left whole, as
  glibc does; musl cuts it to "/". Either way its basename is "/".
- `Man.ParseArgs`: the `-s` and `-w` checks read `*endptr`, which is never
  set (lines 97 and 108). The model checks only the value ranges.
- `Man.SectionOf`: when the output has no '.', the source calls strtoul on
  `NULL + 1` (line 148). The model treats this as naming no section.
- `Cfgen.UnsupportedIff`: the model keeps the unsupported items, not the
  warning's text. That text names the option by `optopt` (line 250), which a
  successful getopt sets to 'l' on BSD but leaves at '?' in glibc.
- `CStr.StrToUL`: leading white space, a sign, and saturation at ULONG_MAX are not modelled.
- hvn-init's `Disk`: mkdir modes and umask are not modelled. A failing
  mkdir is reported only as EEXIST or some other error; a missing parent
  directory is such another error, for mkdir and for fopen alike. Paths are joined
  as text: "" fails, "." is the current directory and ".." always exists,
  but ".." is not followed by chdir, and no other path (a trailing '/',
  "a/./b", "a//b") is normalised.
- hvn-pkgen: the following are not modelled:
  - `umask` (line 275);
  - the ids from getuid/getgid, which are parameters;
  - reading the environment file with getline (its lines are a parameter);
  - setenv failures other than an empty name;
  - the child side of `fork`/`execl`, beyond the termination status it reports.

  The gid-map message prints the user id (line 298), and the model keeps that.
- getopt(3) itself (argument permutation, grouped options, `--`) is not
  modelled: the events it returns and the operands it leaves are the input.
- The C++ front ends (the main.cc files), hvn-mando and hvn-creat are not part of this model.

## Findings

| source | as written | input that shows it | evidently intended | confidence | as-written member | corrected member |
|---|---|---|---|---|---|---|
| src/hvn-mkgen/main.c:53 | `*macro = character - 'a' + 'A'` for every letter, also in src/hvn-cfgen/main.c:189 | module "Ab" gets macro "!BFLAGS" | upper-case the letter, giving "ABFLAGS" | not executed | Macro.UpperCaseMangled | Macro.MacroName |
| src/hvn-pkgen/main.c:175 | compares `line[nread - 1]` with `'\0'`, so the newline is never removed | line "A=b\n" sets A to "b\n" | drop the trailing newline, setting A to "b" | not executed | Pkgen.NewlineKeptAsWritten | Pkgen.ParseFormatRoundTrip |
| src/hvn-mkgen/main.c:113 | selects a list when `strncmp(name, list, equal - list)` is non-zero, that is when the key differs | module "app" with `-d app=libz, -d bin=libq,` depends on libq | select the list whose key equals the module name, giving libz | not executed | Mkgen.DependenciesSwapped | Mkgen.DependenciesKeyed |

The operations model the code as written: the C tools print
`Macro.NameAsWritten` (so `Mkgen.LinkCommandIo` shows "Io" linking with
`$()OFLAGS)`), pick dependencies with the key test reversed
(`Mkgen.OwnKeyIgnoredAsWritten`), and load values with their newline. The
corrected members stay beside them as the intended reference, with the
intended properties proved about them.
