/** hvn-man: the command line of the man-page front end to cmark, the
    names it derives from the input and output paths, and the `.TH`
    header it writes before cmark's rendering. */
module Man {
  import opened CStr
  import opened Getopt

  const SectionMax: nat := 8
  const IntMax: nat := 0x7fff_ffff

  const Letters: set<char> := {'i', 'o', 'p', 's', 'w'}

  /** The arguments once parsed and completed: section and width are
      never 0 after a -s or -w (0 width is cmark's default). */
  datatype Args = Args(input: Option<string>, output: Option<string>, pagename: string, section: nat, width: nat)

  datatype Parsed = Parsed(args: Args) | UsageError(message: string)

  /** -s reads its argument with strtoul in base 10, -w in base 0. */
  function SectionValue(arg: string): nat { StrToUL(arg, false).0 }
  function WidthValue(arg: string): nat { StrToUL(arg, true).0 }

  /** An event the option loop accepts: a known letter, and for -s and -w
      a value in range. */
  predicate Accepted(e: Event) {
    e.Opt? && e.letter in Letters &&
    (e.letter == 's' ==> 0 < SectionValue(e.arg) <= SectionMax) &&
    (e.letter == 'w' ==> 0 < WidthValue(e.arg) <= IntMax)
  }

  /** The warning printed before the usage message for an event the loop
      does not accept. */
  function Rejection(e: Event): string {
    if e.Opt? && e.letter == 's' then "Invalid section number '" + e.arg + "'"
    else if e.Opt? && e.letter == 'w' then "Invalid wrap width '" + e.arg + "'"
    else Complaint(e)
  }

  /** The position of the first event the loop does not accept, or
      |events|. */
  function FirstRejected(events: seq<Event>): (k: nat)
    ensures k <= |events|
    ensures forall i | 0 <= i < k :: Accepted(events[i])
    ensures k < |events| ==> !Accepted(events[k])
  {
    if events == [] || !Accepted(events[0]) then 0
    else 1 + FirstRejected(events[1..])
  }

  /** The output named after the input: its basename up to the last '.'. */
  function OutputName(input: string): (r: string)
    ensures '.' !in Basename(input) ==> r == Basename(input)
    ensures '.' in Basename(input) ==>
      StartsWith(Basename(input), r) && |r| < |Basename(input)| &&
      Basename(input)[|r|] == '.' && '.' !in Basename(input)[|r| + 1..]
  {
    UpToLast(Basename(input), '.')
  }

  /** The page name: the output's basename up to its first '.'. */
  function PageName(output: string): (r: string)
    ensures StartsWith(Basename(output), r) && '.' !in r
    ensures |r| < |Basename(output)| ==> Basename(output)[|r|] == '.'
  {
    UpToFirst(Basename(output), '.')
  }

  /** The section named by the output: the text after the first '.' of its
      basename when that is entirely a number in 1..8, else 0 (none). A
      basename without '.' names none. */
  function SectionOf(output: string): (r: nat)
    ensures r <= SectionMax
  {
    var filename := Basename(output);
    match IndexOf(filename, '.')
    case None => 0
    case Some(k) =>
      var section := filename[k + 1..];
      var (value, end) := StrToUL(section, false);
      if value != 0 && value <= SectionMax && end == |section| then value else 0
  }

  /** The last value of option `letter` read by strtoul, or 0 when the
      option is absent. */
  function Given(events: seq<Event>, letter: char, base0: bool): nat {
    match LastArg(events, letter)
    case Some(arg) => StrToUL(arg, base0).0
    case None => 0
  }

  /** What the tool does after its option loop: an output derived from the
      input when none is given, then the page name and section derived
      from the output when not given, then the defaults "?" and 1. The
      input that names the output, and the output, go through basename(3),
      which drops their trailing slashes in place. */
  function Complete(input: Option<string>, output: Option<string>, pagename: Option<string>, section: nat, width: nat): Args {
    var derived := input.Some? && output.None?;
    var output := if derived then Some(OutputName(input.value)) else output;
    var pagename :=
      if pagename.Some? then pagename.value
      else if output.Some? then PageName(output.value)
      else "?";
    var section :=
      if section != 0 then section
      else if output.Some? && SectionOf(output.value) != 0 then SectionOf(output.value)
      else 1;
    Args(if derived then Some(BasenameTruncated(input.value)) else input,
      if output.Some? then Some(BasenameTruncated(output.value)) else None, pagename, section, width)
  }

  function Parse(events: seq<Event>): Parsed {
    var k := FirstRejected(events);
    if k < |events| then UsageError(Rejection(events[k]))
    else Parsed(Complete(LastArg(events, 'i'), LastArg(events, 'o'), LastArg(events, 'p'),
      Given(events, 's', false), Given(events, 'w', true)))
  }

  /** The command line is accepted exactly when every option is a known
      one with its argument, -s names a section in 1..8 and -w a width in
      1..INT_MAX. */
  lemma ParseAcceptsIff(events: seq<Event>)
    ensures Parse(events).Parsed? <==> forall i | 0 <= i < |events| :: Accepted(events[i])
  {
    var k := FirstRejected(events);
    if k < |events| {
      assert !Accepted(events[k]);
    }
  }

  /** The first event not accepted decides the warning. */
  lemma ParseRejects(events: seq<Event>, i: nat)
    requires i < |events| && !Accepted(events[i])
    requires forall j | 0 <= j < i :: Accepted(events[j])
    ensures Parse(events) == UsageError(Rejection(events[i]))
  {
    assert FirstRejected(events) == i;
  }

  /** Whatever the command line, a parsed section is in 1..8 and the
      width is at most INT_MAX; the last -i, -o, -p, -s and -w win. */
  lemma {:induction false} ParsedRanges(events: seq<Event>)
    requires Parse(events).Parsed?
    ensures 1 <= Parse(events).args.section <= SectionMax
    ensures Parse(events).args.width <= IntMax
    ensures LastArg(events, 'i').None? ==> Parse(events).args.input.None?
    ensures LastArg(events, 'i').Some? ==> (Parse(events).args.input ==
      Some(if LastArg(events, 'o').None? then BasenameTruncated(LastArg(events, 'i').value) else LastArg(events, 'i').value))
    ensures LastArg(events, 'o').Some? ==> Parse(events).args.output == Some(BasenameTruncated(LastArg(events, 'o').value))
    ensures LastArg(events, 'p').Some? ==> Parse(events).args.pagename == LastArg(events, 'p').value
    ensures LastArg(events, 's').Some? ==> Parse(events).args.section == SectionValue(LastArg(events, 's').value)
  {
    ParseAcceptsIff(events);
    LastArgIsLast(events, 's');
    LastArgIsLast(events, 'w');
    if LastArg(events, 's').Some? {
      var i :| 0 <= i < |events| && events[i] == Opt('s', LastArg(events, 's').value) &&
        forall j | i < j < |events| :: events[j].Opt? ==> events[j].letter != 's';
      assert Accepted(events[i]);
    }
    if LastArg(events, 'w').Some? {
      var i :| 0 <= i < |events| && events[i] == Opt('w', LastArg(events, 'w').value) &&
        forall j | i < j < |events| :: events[j].Opt? ==> events[j].letter != 'w';
      assert Accepted(events[i]);
    }
  }

  /** basename(3) drops a trailing '/' in place: "-o ls.1/" writes to
      "ls.1". */
  lemma TrailingSlashOutput(name: string)
    requires name != [] && name[|name| - 1] != '/'
    ensures Parse([Opt('o', name + "/")]).args.output == Some(name)
  {
    var events := [Opt('o', name + "/")];
    ParsedOne('o', name + "/");
    ParsedRanges(events);
    SlashDropped(name);
  }

  /** Without -o, "-i notes.md/" reads "notes.md". */
  lemma TrailingSlashInput(name: string)
    requires name != [] && name[|name| - 1] != '/'
    ensures Parse([Opt('i', name + "/")]).args.input == Some(name)
  {
    var events := [Opt('i', name + "/")];
    ParsedOne('i', name + "/");
    ParsedRanges(events);
    SlashDropped(name);
  }

  /** A single -i or -o names the input or the output. */
  lemma ParsedOne(letter: char, arg: string)
    requires letter == 'i' || letter == 'o'
    ensures Parse([Opt(letter, arg)]).Parsed?
    ensures LastArg([Opt(letter, arg)], 'i') == if letter == 'i' then Some(arg) else None
    ensures LastArg([Opt(letter, arg)], 'o') == if letter == 'o' then Some(arg) else None
  {
    var events := [Opt(letter, arg)];
    assert FirstRejected(events) == 1;
    assert events == [] + [Opt(letter, arg)];
    LastArgSnoc([], Opt(letter, arg), 'i');
    LastArgSnoc([], Opt(letter, arg), 'o');
  }

  /** With no option at all there is no output, the page name is "?" and
      the section 1. */
  lemma ParseDefaults()
    ensures Parse([]) == Parsed(Args(None, None, "?", 1, 0))
  {
  }

  /** The digits of a section hold neither '/' nor '.'. */
  lemma DecimalPlain(n: nat)
    ensures '/' !in Decimal(n) && '.' !in Decimal(n)
    ensures forall i | 0 <= i < |Decimal(n)| :: IsDigit(Decimal(n)[i])
  {
  }

  /** An output "page.n" names page `page`, and section n when n is in
      1..8. */
  lemma SectionOfName(page: string, n: nat)
    requires page != [] && '/' !in page && '.' !in page
    ensures PageName(page + "." + Decimal(n)) == page
    ensures SectionOf(page + "." + Decimal(n)) == if 1 <= n <= SectionMax then n else 0
  {
    var d := Decimal(n);
    var output := page + "." + d;
    DecimalPlain(n);
    BasenamePlain(output);
    assert output[..|page|] == page;
    IndexOfAt(output, '.', |page|);
    assert output[|page| + 1..] == d;
    DecimalReadsBack(n);
  }

  /** A section text that does not parse entirely names no section:
      "page.1.gz" or "page.1x" get the default section. */
  lemma SectionOfSuffixed(page: string, n: nat, rest: string)
    requires page != [] && '/' !in page && '.' !in page
    requires rest != [] && !IsDigit(rest[0]) && '/' !in rest
    ensures SectionOf(page + "." + Decimal(n) + rest) == 0
  {
    var d := Decimal(n);
    var output := page + "." + d + rest;
    DecimalPlain(n);
    BasenamePlain(output);
    assert output[..|page|] == page;
    IndexOfAt(output, '.', |page|);
    assert output[|page| + 1..] == d + rest;
    DigitPrefixOf(d, rest);
  }

  /** strtoul stops at the first character that is not a digit. */
  lemma {:induction false} DigitPrefixOf(d: string, rest: string)
    requires forall i | 0 <= i < |d| :: IsDigit(d[i])
    requires rest != [] && !IsDigit(rest[0])
    ensures DigitPrefixLength(d + rest, 10) == |d|
  {
    if d != [] {
      assert (d + rest)[1..] == d[1..] + rest;
      DigitPrefixOf(d[1..], rest);
    } else {
      assert d + rest == rest;
    }
  }

  /** With only -i, the output, page name and section all come from the
      input's name: "ls.1.md" gives "ls.1", page "ls", section 1. */
  lemma FromInput(page: string, n: nat, extension: string)
    requires page != [] && '/' !in page && '.' !in page
    requires 1 <= n <= SectionMax
    requires '/' !in extension && '.' !in extension
    ensures Parse([Opt('i', page + "." + Decimal(n) + "." + extension)]) ==
      Parsed(Args(Some(page + "." + Decimal(n) + "." + extension), Some(page + "." + Decimal(n)), page, n, 0))
  {
    var output := page + "." + Decimal(n);
    var input := output + "." + extension;
    var events := [Opt('i', input)];
    assert FirstRejected(events) == 1;
    assert events == [] + [Opt('i', input)];
    LastArgSnoc([], Opt('i', input), 'i');
    LastArgSnoc([], Opt('i', input), 'o');
    LastArgSnoc([], Opt('i', input), 'p');
    LastArgSnoc([], Opt('i', input), 's');
    LastArgSnoc([], Opt('i', input), 'w');
    assert Given(events, 's', false) == 0 && Given(events, 'w', true) == 0;
    DecimalPlain(n);
    BasenamePlain(input);
    BasenameTruncatedPlain(input);
    BasenameTruncatedPlain(output);
    UpToLastOf(output, '.', extension);
    assert OutputName(input) == output;
    SectionOfName(page, n);
  }

  /** `.TH <pagename> <section>\n`, which cmark's rendering follows. */
  function Header(args: Args): string {
    ".TH " + args.pagename + " " + Decimal(args.section) + "\n"
  }

  function Page(args: Args, rendered: string): string {
    Header(args) + rendered
  }

  /** The page reads back: after ".TH " comes the page name, a space, and
      digits that strtoul reads as the section, then a newline, then the
      rendering. */
  lemma PageReadsBack(args: Args, rendered: string)
    ensures var p := Page(args, rendered); var n := |args.pagename|; var h := |Header(args)|;
      p[..4] == ".TH " && p[4..4 + n] == args.pagename && p[4 + n] == ' ' &&
      StrToUL(p[5 + n..h - 1], false) == (args.section, h - 6 - n) &&
      p[h - 1] == '\n' && p[h..] == rendered
  {
    var p := Page(args, rendered);
    var n := |args.pagename|;
    var h := Header(args);
    assert p[5 + n..|h| - 1] == Decimal(args.section);
    DecimalReadsBack(args.section);
  }

  /** One more option read by the loop: only its own letter's value
      changes. */
  lemma ParseStep(events: seq<Event>, i: nat, before: seq<Event>, after: seq<Event>)
    requires i < |events| && before == events[..i] && after == events[..i + 1]
    ensures forall letter | letter in Letters ::
      LastArg(after, letter) == if events[i].Opt? && events[i].letter == letter then Some(events[i].arg) else LastArg(before, letter)
  {
    TakeSnoc(events, i);
    forall letter | letter in Letters
      ensures LastArg(after, letter) == if events[i].Opt? && events[i].letter == letter then Some(events[i].arg) else LastArg(before, letter)
    {
      LastArgSnoc(before, events[i], letter);
    }
  }

  /** After every option was accepted, the values read complete the
      arguments. */
  lemma ParseAccepted(events: seq<Event>, before: seq<Event>)
    requires before == events[..|events|]
    requires forall j | 0 <= j < |events| :: Accepted(events[j])
    ensures Parse(events) == Parsed(Complete(LastArg(before, 'i'), LastArg(before, 'o'), LastArg(before, 'p'),
      Given(before, 's', false), Given(before, 'w', true)))
  {
    assert before == events;
    assert FirstRejected(events) == |events|;
  }

  /** The option loop: -i, -o and -p replace the earlier value, -s and -w
      are range-checked and replace it too. */
  method ParseArgs(events: seq<Event>) returns (r: Parsed)
    ensures r == Parse(events)
  {
    var input, output, pagename: Option<string> := None, None, None;
    var section, width := 0, 0;
    var i := 0;
    ghost var before: seq<Event> := [];
    while i < |events|
      invariant 0 <= i <= |events| && before == events[..i]
      invariant forall j | 0 <= j < i :: Accepted(events[j])
      invariant input == LastArg(before, 'i')
      invariant output == LastArg(before, 'o')
      invariant pagename == LastArg(before, 'p')
      invariant section == Given(before, 's', false)
      invariant width == Given(before, 'w', true)
    {
      var e := events[i];
      ghost var after := events[..i + 1];
      ParseStep(events, i, before, after);
      if e.Opt? && e.letter == 'i' {
        input := Some(e.arg);
      } else if e.Opt? && e.letter == 'o' {
        output := Some(e.arg);
      } else if e.Opt? && e.letter == 'p' {
        pagename := Some(e.arg);
      } else if e.Opt? && e.letter == 's' {
        var value := StrToUL(e.arg, false).0;
        if value == 0 || value > SectionMax {
          ParseRejects(events, i);
          return UsageError("Invalid section number '" + e.arg + "'");
        }
        section := value;
      } else if e.Opt? && e.letter == 'w' {
        var value := StrToUL(e.arg, true).0;
        if value == 0 || value > IntMax {
          ParseRejects(events, i);
          return UsageError("Invalid wrap width '" + e.arg + "'");
        }
        width := value;
      } else {
        ParseRejects(events, i);
        return UsageError(Complaint(e));
      }
      i, before := i + 1, after;
    }
    ParseAccepted(events, before);

    if input.Some? && output.None? {
      var filename := Basename(input.value);
      input := Some(BasenameTruncated(input.value));
      output := Some(UpToLast(filename, '.'));
    }
    var name := "?";
    if output.Some? {
      var filename := Basename(output.value);
      var given := output.value;
      output := Some(BasenameTruncated(output.value));
      if pagename.None? {
        pagename := Some(UpToFirst(filename, '.'));
      }
      if section == 0 {
        section := SectionOf(given);
      }
    }
    if pagename.Some? {
      name := pagename.value;
    }
    if section == 0 {
      section := 1;
    }
    r := Parsed(Args(input, output, name, section, width));
  }
}
