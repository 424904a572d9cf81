/** The render options hvn-man and hvn-web accept as operands: a name
    table over cmark's option bits, OR-ed into one `int`. The bit values
    are cmark's (CMARK_OPT_*). */
module Cmark {
  import opened CStr
  import opened Table

  type Options = bv32

  const Default: Options := 0
  const SourcePos: Options := 1 << 1
  const HardBreaks: Options := 1 << 2
  const Safe: Options := 1 << 3
  const NoBreaks: Options := 1 << 4
  const ValidateUtf8: Options := 1 << 9
  const Smart: Options := 1 << 10
  const Unsafe: Options := 1 << 17

  /** The table, in the tools' order. */
  const RenderOptions: seq<(string, Options)> := [
    ("sourcepos", SourcePos),
    ("hardbreaks", HardBreaks),
    ("nobreaks", NoBreaks),
    ("smart", Smart),
    ("safe", Safe),
    ("unsafe", Unsafe),
    ("validate-utf8", ValidateUtf8)
  ]

  /** Every bit the table can set. */
  const AllOptions: Options := SourcePos | HardBreaks | NoBreaks | Smart | Safe | Unsafe | ValidateUtf8

  /** The bit of one operand: its table entry's, or none for a name the
      table does not hold. */
  function OptionOf(name: string): Options {
    match Lookup(RenderOptions, name)
    case Some(v) => v
    case None => 0
  }

  /** An operand sets a bit of the table, or none. */
  lemma OptionOfWithinTable(name: string)
    ensures OptionOf(name) & AllOptions == OptionOf(name)
  {
    LookupFirst(RenderOptions, name);
    if Lookup(RenderOptions, name).Some? {
      var i :| 0 <= i < |RenderOptions| && RenderOptions[i] == (name, Lookup(RenderOptions, name).value) &&
        forall j | 0 <= j < i :: RenderOptions[j].0 != name;
    }
  }

  /** The options of all operands, in order. */
  function OptionsOf(names: seq<string>): Options {
    if names == [] then Default
    else OptionsOf(names[..|names| - 1]) | OptionOf(names[|names| - 1])
  }

  lemma OptionsOfSnoc(names: seq<string>, name: string)
    ensures OptionsOf(names + [name]) == OptionsOf(names) | OptionOf(name)
  {
    assert (names + [name])[..|names|] == names;
  }

  /** Every operand named in the table sets its bit, whatever else is
      given. */
  lemma {:induction false} NamedOptionSet(names: seq<string>, i: nat)
    requires i < |names|
    ensures OptionsOf(names) & OptionOf(names[i]) == OptionOf(names[i])
  {
    var init := names[..|names| - 1];
    if i < |init| {
      assert init[i] == names[i];
      NamedOptionSet(init, i);
    }
  }

  /** No bit outside the table is ever set. */
  lemma {:induction false} OptionsWithinTable(names: seq<string>)
    ensures OptionsOf(names) & AllOptions == OptionsOf(names)
  {
    if names != [] {
      OptionsWithinTable(names[..|names| - 1]);
      OptionOfWithinTable(names[|names| - 1]);
    }
  }

  predicate Sets(options: Options, bit: Options) {
    options & bit != 0
  }

  lemma OrMasked(a: Options, b: Options, bit: Options)
    requires Sets(a | b, bit) && !Sets(b, bit)
    ensures Sets(a, bit)
  {
  }

  /** A bit is set only by an operand that names it. */
  lemma {:induction false} OptionsFromNames(names: seq<string>, bit: Options)
    requires Sets(OptionsOf(names), bit)
    ensures exists i | 0 <= i < |names| :: Sets(OptionOf(names[i]), bit)
  {
    if names == [] {
      assert false;
    }
    var init := names[..|names| - 1];
    var last := OptionOf(names[|names| - 1]);
    if !Sets(last, bit) {
      OrMasked(OptionsOf(init), last, bit);
      OptionsFromNames(init, bit);
      var i :| 0 <= i < |init| && Sets(OptionOf(init[i]), bit);
      assert names[i] == init[i];
    }
  }

  /** Unknown operands are ignored. */
  lemma UnknownIgnored(names: seq<string>, name: string)
    requires forall i | 0 <= i < |RenderOptions| :: RenderOptions[i].0 != name
    ensures OptionsOf(names + [name]) == OptionsOf(names)
  {
    LookupFirst(RenderOptions, name);
    OptionsOfSnoc(names, name);
  }

  lemma FoundOption(name: string, found: Option<Options>)
    requires found == Lookup(RenderOptions, name)
    ensures (if found.Some? then found.value else Default) == OptionOf(name)
  {
  }

  lemma OptionsStep(names: seq<string>, i: nat)
    requires i < |names|
    ensures OptionsOf(names[..i + 1]) == OptionsOf(names[..i]) | OptionOf(names[i])
  {
    assert names[..i + 1] == names[..i] + [names[i]];
    OptionsOfSnoc(names[..i], names[i]);
  }

  /** The operand loop of main: look each operand up in the table and OR
      its bit in. */
  method ParseOptions(names: seq<string>) returns (options: Options)
    ensures options == OptionsOf(names)
  {
    options := Default;
    var i := 0;
    while i != |names|
      invariant 0 <= i <= |names|
      invariant options == OptionsOf(names[..i])
    {
      var found := Find(RenderOptions, names[i]);
      var bit := if found.Some? then found.value else Default;
      FoundOption(names[i], found);
      OptionsStep(names, i);
      options := options | bit;
      i := i + 1;
    }
    assert names[..i] == names;
  }
}
