/** The command lines of the tools are read with getopt(3) and an option
    string that begins with ':'. The model takes what getopt hands back,
    call after call, as a sequence of events, and the operands left after
    it (argv[optind..]) as a sequence of strings. */
module Getopt {
  import opened CStr

  datatype Event =
    | Opt(letter: char, arg: string)   // an option of the option string, with its optarg
    | MissingArgument(letter: char)    // getopt returned ':'; letter is optopt
    | UnknownOption(letter: char)      // getopt returned '?'; letter is optopt

  /** The argument of the last occurrence of option `letter`: a later
      occurrence replaces an earlier one. */
  function LastArg(events: seq<Event>, letter: char): Option<string> {
    if events == [] then None
    else
      var last := events[|events| - 1];
      if last.Opt? && last.letter == letter then Some(last.arg)
      else LastArg(events[..|events| - 1], letter)
  }

  /** LastArg finds nothing exactly when the option never occurs, and
      otherwise the argument of an occurrence that no later one follows. */
  lemma LastArgIsLast(events: seq<Event>, letter: char)
    ensures LastArg(events, letter).None? <==> forall i | 0 <= i < |events| :: events[i].Opt? ==> events[i].letter != letter
    ensures LastArg(events, letter).Some? ==> exists i | 0 <= i < |events| ::
      events[i] == Opt(letter, LastArg(events, letter).value) &&
      forall j | i < j < |events| :: events[j].Opt? ==> events[j].letter != letter
  {
    LastArgAbsent(events, letter);
    if LastArg(events, letter).Some? {
      var i := LastArgAt(events, letter);
    }
  }

  lemma {:induction false} LastArgAbsent(events: seq<Event>, letter: char)
    ensures LastArg(events, letter).None? <==> forall i | 0 <= i < |events| :: events[i].Opt? ==> events[i].letter != letter
  {
    if events != [] {
      var init := events[..|events| - 1];
      LastArgAbsent(init, letter);
      assert forall i | 0 <= i < |init| :: init[i] == events[i];
    }
  }

  /** The index of the occurrence LastArg finds. */
  lemma {:induction false} LastArgAt(events: seq<Event>, letter: char) returns (i: nat)
    requires LastArg(events, letter).Some?
    ensures i < |events| && events[i] == Opt(letter, LastArg(events, letter).value)
    ensures forall j | i < j < |events| :: events[j].Opt? ==> events[j].letter != letter
  {
    var last := events[|events| - 1];
    if last.Opt? && last.letter == letter {
      i := |events| - 1;
    } else {
      var init := events[..|events| - 1];
      i := LastArgAt(init, letter);
      assert events[i] == init[i];
    }
  }

  /** The arguments of every occurrence of option `letter`, in order. */
  function AllArgs(events: seq<Event>, letter: char): (r: seq<string>)
    ensures |r| <= |events|
  {
    if events == [] then []
    else
      var last := events[|events| - 1];
      AllArgs(events[..|events| - 1], letter) + if last.Opt? && last.letter == letter then [last.arg] else []
  }

  lemma AllArgsSnoc(events: seq<Event>, e: Event, letter: char)
    ensures AllArgs(events + [e], letter) ==
      AllArgs(events, letter) + if e.Opt? && e.letter == letter then [e.arg] else []
  {
    assert (events + [e])[..|events|] == events;
  }

  /** Every occurrence contributes its argument, and nothing else does. */
  lemma {:induction false} AllArgsComplete(events: seq<Event>, letter: char, i: nat)
    requires i < |events| && events[i].Opt? && events[i].letter == letter
    ensures events[i].arg in AllArgs(events, letter)
  {
    var init := events[..|events| - 1];
    if i < |events| - 1 {
      assert init[i] == events[i];
      AllArgsComplete(init, letter, i);
    }
  }

  predicate Recognized(e: Event, letters: set<char>) {
    e.Opt? && e.letter in letters
  }

  /** The position of the first event the option loop cannot accept
      (the loop exits the program there), or |events| if there is none. */
  function FirstUnrecognized(events: seq<Event>, letters: set<char>): (k: nat)
    ensures k <= |events|
    ensures forall i | 0 <= i < k :: Recognized(events[i], letters)
    ensures k < |events| ==> !Recognized(events[k], letters)
  {
    if events == [] || !Recognized(events[0], letters) then 0
    else 1 + FirstUnrecognized(events[1..], letters)
  }

  /** The warning printed before the usage message for a rejected event,
      when the tool names the option by optopt. */
  function Complaint(e: Event): string {
    match e
    case MissingArgument(c) => "-" + [c] + ": Missing argument"
    case UnknownOption(c) => "Unknown argument -" + [c]
    case Opt(c, _) => "Unknown argument -" + [c]
  }

  /** The same warning in the tools that print getopt's return value
      rather than optopt for an unknown option (it is then '?'). */
  function ComplaintByReturn(e: Event): string {
    match e
    case MissingArgument(c) => "-" + [c] + ": Missing argument"
    case UnknownOption(_) => "Unknown argument -?"
    case Opt(c, _) => "Unknown argument -" + [c]
  }

  lemma LastArgSnoc(events: seq<Event>, e: Event, letter: char)
    ensures LastArg(events + [e], letter) ==
      if e.Opt? && e.letter == letter then Some(e.arg) else LastArg(events, letter)
  {
    assert (events + [e])[..|events|] == events;
  }
}

/** Results of system calls, as the model's callers see them. */
module Sys {
  datatype Errno = EINVAL | EEXIST | OtherErrno

  /** A system call either returns a count (a pid, a number of bytes
      written, or 0) or fails with an errno. */
  datatype Reply = Done(count: int) | Failed(errno: Errno)

  /** How a process terminated. */
  datatype Exit = Success | Failure(message: string)
}
