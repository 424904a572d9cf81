/** hvn-web: the command line of the HTML front end to cmark, the output
    name it derives from the input, and the page it writes: the head file,
    cmark's HTML, the tail file. */
module Web {
  import opened CStr
  import opened Getopt

  const Letters: set<char> := {'i', 'o', 'H', 'T'}

  const HtmlExtension := ".html"

  datatype Args = Args(input: Option<string>, output: Option<string>, head: Option<string>, tail: Option<string>)

  datatype Parsed = Parsed(args: Args) | UsageError(message: string)

  /** The output named after the input: its basename up to the last '.',
      then ".html". */
  function HtmlName(input: string): (r: string)
    ensures |r| >= |HtmlExtension| && r[|r| - |HtmlExtension|..] == HtmlExtension
    ensures var base, stem := Basename(input), r[..|r| - |HtmlExtension|];
      StartsWith(base, stem) &&
      ('.' !in base ==> stem == base) &&
      ('.' in base ==> |stem| < |base| && base[|stem|] == '.' && '.' !in base[|stem| + 1..])
  {
    var stem := UpToLast(Basename(input), '.');
    assert (stem + HtmlExtension)[..|stem|] == stem;
    stem + HtmlExtension
  }

  /** Options are -i, -o, -H and -T with their argument, the last of each
      kept; without -o an input names the output, and basename(3) drops
      that input's trailing slashes in place. */
  function Parse(events: seq<Event>): Parsed {
    var k := FirstUnrecognized(events, Letters);
    if k < |events| then UsageError(Complaint(events[k]))
    else
      var input := LastArg(events, 'i');
      var derived := input.Some? && LastArg(events, 'o').None?;
      var output := if derived then Some(HtmlName(input.value)) else LastArg(events, 'o');
      Parsed(Args(if derived then Some(BasenameTruncated(input.value)) else input, output, LastArg(events, 'H'), LastArg(events, 'T')))
  }

  /** The command line is accepted exactly when every option is -i, -o,
      -H or -T with its argument. */
  lemma ParseAcceptsIff(events: seq<Event>)
    ensures Parse(events).Parsed? <==> forall i | 0 <= i < |events| :: events[i].Opt? && events[i].letter in Letters
  {
    var k := FirstUnrecognized(events, Letters);
    if k < |events| {
      assert !Recognized(events[k], Letters);
    }
  }

  lemma ParseRejects(events: seq<Event>, i: nat)
    requires i < |events| && !Recognized(events[i], Letters)
    requires forall j | 0 <= j < i :: Recognized(events[j], Letters)
    ensures Parse(events) == UsageError(Complaint(events[i]))
  {
    assert FirstUnrecognized(events, Letters) == i;
  }

  /** An explicit -o is kept; without one there is an output exactly when
      there is an input. */
  lemma ParseOutput(events: seq<Event>)
    requires Parse(events).Parsed?
    ensures LastArg(events, 'o').Some? ==> Parse(events).args.output == LastArg(events, 'o')
    ensures LastArg(events, 'o').None? ==> (Parse(events).args.output.Some? <==> LastArg(events, 'i').Some?)
    ensures LastArg(events, 'i').None? ==> Parse(events).args.input.None?
    ensures LastArg(events, 'i').Some? ==> (Parse(events).args.input ==
      Some(if LastArg(events, 'o').None? then BasenameTruncated(LastArg(events, 'i').value) else LastArg(events, 'i').value))
  {
  }

  /** "-i notes.md/" reads "notes.md" and writes "notes.html". */
  lemma TrailingSlashInput(name: string, extension: string)
    requires name != [] && '/' !in name && '.' !in extension && '/' !in extension
    ensures Parse([Opt('i', name + "." + extension + "/")]).args == Args(Some(name + "." + extension), Some(name + HtmlExtension), None, None)
  {
    var file := name + "." + extension;
    var events := [Opt('i', file + "/")];
    assert FirstUnrecognized(events, Letters) == 1;
    assert events == [] + [Opt('i', file + "/")];
    LastArgSnoc([], Opt('i', file + "/"), 'i');
    LastArgSnoc([], Opt('i', file + "/"), 'o');
    LastArgSnoc([], Opt('i', file + "/"), 'H');
    LastArgSnoc([], Opt('i', file + "/"), 'T');
    SlashDropped(file);
    BasenameKept(file + "/");
    BasenamePlain(file);
    UpToLastOf(name, '.', extension);
  }

  /** "docs/index.md" is written to "index.html". */
  lemma HtmlNameOf(dir: string, name: string, extension: string)
    requires name != [] && '/' !in name && '.' !in extension && '/' !in extension
    ensures HtmlName(dir + "/" + name + "." + extension) == name + HtmlExtension
  {
    var file := name + "." + extension;
    var path := dir + "/" + name + "." + extension;
    assert path == dir + "/" + file;
    BasenameOfPath(dir, file);
    UpToLastOf(name, '.', extension);
    assert HtmlName(path) == UpToLast(file, '.') + HtmlExtension;
  }

  /** What the dump of an optional file writes: nothing for no file or one
      that does not open, else its contents. */
  function Dumped(file: Option<string>, files: string -> Option<string>): string {
    match file
    case None => ""
    case Some(name) => match files(name) case Some(contents) => contents case None => ""
  }

  /** The warning of that dump, if any. */
  function Warned(file: Option<string>, files: string -> Option<string>): seq<string> {
    if file.Some? && files(file.value).None? then ["open " + file.value] else []
  }

  /** hvn_web_dump: append the file's contents to the output, or warn and
      go on. */
  method Dump(output: string, file: Option<string>, files: string -> Option<string>) returns (written: string, warnings: seq<string>)
    ensures written == output + Dumped(file, files) && warnings == Warned(file, files)
  {
    written, warnings := output, [];
    if file.Some? {
      var contents := files(file.value);
      if contents.Some? {
        written := written + contents.value;
      } else {
        warnings := ["open " + file.value];
      }
    }
  }

  /** hvn_web_render: head, then the HTML, then tail. */
  method Render(output: string, args: Args, html: string, files: string -> Option<string>) returns (written: string, warnings: seq<string>)
    ensures written == output + Dumped(args.head, files) + html + Dumped(args.tail, files)
    ensures warnings == Warned(args.head, files) + Warned(args.tail, files)
  {
    var w1, w2;
    written, w1 := Dump(output, args.head, files);
    written := written + html;
    written, w2 := Dump(written, args.tail, files);
    warnings := w1 + w2;
  }

  /** The page is the head's contents, the HTML, the tail's contents, in
      that order; a head or tail that is absent or does not open adds
      nothing, and only one that does not open is warned about. */
  lemma RenderOrder(args: Args, html: string, files: string -> Option<string>)
    ensures var page := Dumped(args.head, files) + html + Dumped(args.tail, files);
      var h := |Dumped(args.head, files)|;
      page[h..h + |html|] == html &&
      (args.head.Some? && files(args.head.value).Some? ==> page[..h] == files(args.head.value).value) &&
      (args.tail.Some? && files(args.tail.value).Some? ==> page[h + |html|..] == files(args.tail.value).value) &&
      ((args.head.None? || files(args.head.value).None?) && (args.tail.None? || files(args.tail.value).None?) ==> page == html)
    ensures Warned(args.head, files) + Warned(args.tail, files) == [] <==>
      (args.head.None? || files(args.head.value).Some?) && (args.tail.None? || files(args.tail.value).Some?)
  {
    var page := Dumped(args.head, files) + html + Dumped(args.tail, files);
    var h := |Dumped(args.head, files)|;
    assert page[h..h + |html|] == html;
    assert page[h + |html|..] == Dumped(args.tail, files);
  }

  /** The option loop: every option replaces the earlier value of its
      letter; then the output is derived from the input. */
  method ParseArgs(events: seq<Event>) returns (r: Parsed)
    ensures r == Parse(events)
  {
    var input, output, head, tail: Option<string> := None, None, None, None;
    var i := 0;
    while i < |events|
      invariant 0 <= i <= |events|
      invariant forall j | 0 <= j < i :: Recognized(events[j], Letters)
      invariant input == LastArg(events[..i], 'i') && output == LastArg(events[..i], 'o')
      invariant head == LastArg(events[..i], 'H') && tail == LastArg(events[..i], 'T')
    {
      var e := events[i];
      assert events[..i + 1] == events[..i] + [e];
      LastArgSnoc(events[..i], e, 'i');
      LastArgSnoc(events[..i], e, 'o');
      LastArgSnoc(events[..i], e, 'H');
      LastArgSnoc(events[..i], e, 'T');
      if e.Opt? && e.letter == 'i' {
        input := Some(e.arg);
      } else if e.Opt? && e.letter == 'o' {
        output := Some(e.arg);
      } else if e.Opt? && e.letter == 'H' {
        head := Some(e.arg);
      } else if e.Opt? && e.letter == 'T' {
        tail := Some(e.arg);
      } else {
        ParseRejects(events, i);
        return UsageError(Complaint(e));
      }
      i := i + 1;
    }
    assert events[..i] == events;
    assert FirstUnrecognized(events, Letters) == |events|;
    if input.Some? && output.None? {
      var filename := Basename(input.value);
      input := Some(BasenameTruncated(input.value));
      output := Some(UpToLast(filename, '.') + HtmlExtension);
    }
    r := Parsed(Args(input, output, head, tail));
  }
}
