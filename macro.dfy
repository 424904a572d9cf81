/** The make variable that holds a module's link flags. hvn-mkgen and
    hvn-cfgen build it with the same character loop over a stack buffer:
    a letter c becomes `c - 'a' + 'A'`, a digit is kept, any other
    character becomes '_', and "FLAGS" is appended. That is the upper
    case only for a lower-case letter; an upper-case letter comes out as
    punctuation. The tools are modelled as written (NameAsWritten); the
    evidently intended macro (MacroName) is defined beside it, and the two
    agree exactly on names without an upper-case letter. */
module Macro {
  import opened CStr

  const Suffix := "FLAGS"

  /** The loop as written: a letter becomes `c - 'a' + 'A'`, which is its
      upper case for a lower-case letter but 32 below an upper-case one. */
  function CharAsWritten(c: char): char {
    if IsAlpha(c) then (c as int - 'a' as int + 'A' as int) as char
    else if IsDigit(c) then c
    else '_'
  }

  /** The macro the tools print: one character per character of the name,
      each an upper-case letter, a digit, '_', or the punctuation from '!'
      to ':' that an upper-case letter turns into; then "FLAGS". */
  function NameAsWritten(name: string): (r: string)
    ensures |r| == |name| + |Suffix| && r[|name|..] == Suffix
    ensures forall i | 0 <= i < |r| :: IsUpper(r[i]) || IsDigit(r[i]) || r[i] == '_' || '!' <= r[i] <= ':'
  {
    seq(|name|, i requires 0 <= i < |name| => CharAsWritten(name[i])) + Suffix
  }

  /** An upper-case letter comes out as punctuation: 'A' gives '!', so
      the module "Ab" reads its flags from "!BFLAGS" where "ABFLAGS" was
      meant. */
  lemma UpperCaseMangled()
    ensures NameAsWritten("Ab") == "!BFLAGS" && MacroName("Ab") == "ABFLAGS"
    ensures forall c | IsUpper(c) :: !IsUpper(CharAsWritten(c)) && CharAsWritten(c) != MacroChar(c)
  {
    assert NameAsWritten("Ab")[0] == '!';
    assert MacroName("Ab")[0] == 'A';
  }

  /** The printed macro is the intended one exactly when the name holds no
      upper-case letter. */
  lemma AsWrittenAgrees(name: string)
    ensures NameAsWritten(name) == MacroName(name) <==> forall i | 0 <= i < |name| :: !IsUpper(name[i])
  {
    var a, b := NameAsWritten(name), MacroName(name);
    if forall i | 0 <= i < |name| :: !IsUpper(name[i]) {
      assert forall i | 0 <= i < |a| :: a[i] == b[i];
    } else {
      var i :| 0 <= i < |name| && IsUpper(name[i]);
      assert a[i] != b[i];
    }
  }

  /** In the macro as written, ')' comes only from 'I' and '$' only from
      'D': "Io" gives ")OFLAGS". */
  lemma AsWrittenPunctuation(name: string)
    ensures ')' in NameAsWritten(name) <==> 'I' in name
    ensures '$' in NameAsWritten(name) <==> 'D' in name
    ensures NameAsWritten("Io") == ")OFLAGS"
  {
    forall c: char ensures CharAsWritten(c) == ')' <==> c == 'I' {}
    CharTraced(name, 'I', ')');
    forall c: char ensures CharAsWritten(c) == '$' <==> c == 'D' {}
    CharTraced(name, 'D', '$');
    assert NameAsWritten("Io")[0] == ')' && NameAsWritten("Io")[1] == 'O';
  }

  /** A character outside "FLAGS" that only `c` turns into appears in the
      printed macro exactly where `c` appears in the name. */
  lemma CharTraced(name: string, c: char, p: char)
    requires forall x: char :: CharAsWritten(x) == p <==> x == c
    requires p !in Suffix
    ensures p in NameAsWritten(name) <==> c in name
  {
    var m := NameAsWritten(name);
    if p in m {
      var i :| 0 <= i < |m| && m[i] == p;
      assert i < |name|;
      assert CharAsWritten(name[i]) == p;
    }
    if c in name {
      var i :| 0 <= i < |name| && name[i] == c;
      assert m[i] == CharAsWritten(c);
    }
  }

  /** The intended character: upper case for a letter, digits kept,
      '_' for anything else. */
  function MacroChar(c: char): (r: char)
    ensures IsUpper(r) || IsDigit(r) || r == '_'
    ensures IsAlpha(c) ==> ToLower(r) == ToLower(c)
    ensures IsDigit(c) <==> r == c && IsDigit(r)
  {
    if IsAlpha(c) then ToUpper(c) else if IsDigit(c) then c else '_'
  }

  /** The macro of a module name: a shell and make variable name made of
      upper-case letters, digits and '_', one character per character of
      the name, ending in "FLAGS". */
  function MacroName(name: string): (r: string)
    ensures |r| == |name| + |Suffix| && r[|name|..] == Suffix
    ensures forall i | 0 <= i < |r| :: IsUpper(r[i]) || IsDigit(r[i]) || r[i] == '_'
  {
    seq(|name|, i requires 0 <= i < |name| => MacroChar(name[i])) + Suffix
  }

  /** Two letters equal up to case, the same digit, or two characters that
      are neither. */
  predicate Alike(x: char, y: char) {
    (IsAlpha(x) && IsAlpha(y) && ToLower(x) == ToLower(y)) ||
    (IsDigit(x) && x == y) ||
    (!IsAlpha(x) && !IsDigit(x) && !IsAlpha(y) && !IsDigit(y))
  }

  /** Names that agree up to letter case, and on which characters are
      letters and digits, share their macro; in particular a '-' and a '_'
      are not told apart. */
  lemma {:induction false} MacroNameCaseBlind(a: string, b: string)
    requires |a| == |b|
    requires forall i | 0 <= i < |a| :: Alike(a[i], b[i])
    ensures MacroName(a) == MacroName(b)
  {
    forall i | 0 <= i < |a|
      ensures MacroChar(a[i]) == MacroChar(b[i])
    {
      if IsAlpha(a[i]) && IsAlpha(b[i]) {
        assert ToUpper(a[i]) == ToUpper(b[i]);
      }
    }
    assert MacroName(a)[..|a|] == MacroName(b)[..|b|];
  }

  /** For a name made of lower-case letters, digits and '_' the tools'
      macro is the intended one, and the name reads back by folding the
      macro to lower case. */
  lemma MacroNameReadsBack(name: string)
    requires forall i | 0 <= i < |name| :: IsLower(name[i]) || IsDigit(name[i]) || name[i] == '_'
    ensures NameAsWritten(name) == MacroName(name)
    ensures forall i | 0 <= i < |name| :: ToLower(NameAsWritten(name)[i]) == name[i]
  {
    AsWrittenAgrees(name);
  }

  /** The loop of both tools: copy the name into `macro`, rewrite it in
      place one character at a time as written, then append the suffix
      and its NUL. */
  method Fill(macro: array<char>, name: string)
    requires macro.Length == |name| + |Suffix| + 1
    modifies macro
    ensures macro[..|name| + |Suffix|] == NameAsWritten(name) && macro[|name| + |Suffix|] == '\0'
  {
    forall j | 0 <= j < |name| {
      macro[j] := name[j];
    }
    var current := 0;
    while current != |name|
      invariant 0 <= current <= |name|
      invariant forall j | 0 <= j < current :: macro[j] == CharAsWritten(name[j])
      invariant forall j | current <= j < |name| :: macro[j] == name[j]
    {
      var character := macro[current];
      if IsAlpha(character) {
        macro[current] := (character as int - 'a' as int + 'A' as int) as char;
      } else if IsDigit(character) {
        macro[current] := character;
      } else {
        macro[current] := '_';
      }
      current := current + 1;
    }
    var terminated := Suffix + "\0";
    forall j | 0 <= j < |terminated| {
      macro[current + j] := terminated[j];
    }
    assert macro[..|name| + |Suffix|] == NameAsWritten(name) by {
      assert forall j | 0 <= j < |name| :: macro[..|name| + |Suffix|][j] == NameAsWritten(name)[j];
      assert forall j | |name| <= j < |name| + |Suffix| :: macro[..|name| + |Suffix|][j] == NameAsWritten(name)[j];
    }
  }
}
