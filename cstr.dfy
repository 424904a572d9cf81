/** C-string helpers shared by every tool: the libc searches the tools use
    (strchr, strrchr, strncmp on a prefix, basename), ASCII classification
    in the C locale, strtoul and the `%d` conversion. Strings are the
    C-string view of a buffer: the characters before its terminating NUL. */
module CStr {

  datatype Option<T> = None | Some(value: T)

  predicate StartsWith(s: string, prefix: string) {
    |prefix| <= |s| && s[..|prefix|] == prefix
  }

  /** strchr: the index of the first occurrence of c in s, if any. */
  function IndexOf(s: string, c: char): (r: Option<nat>)
    ensures r.None? <==> forall i | 0 <= i < |s| :: s[i] != c
    ensures r.Some? ==> r.value < |s| && s[r.value] == c && forall i | 0 <= i < r.value :: s[i] != c
  {
    if s == [] then None
    else if s[0] == c then Some(0)
    else match IndexOf(s[1..], c)
      case None => None
      case Some(k) =>
        assert s[1..][..k] == s[1..k + 1];
        Some(k + 1)
  }

  /** A c at k with none before it is what strchr finds. */
  lemma IndexOfAt(s: string, c: char, k: nat)
    requires k < |s| && s[k] == c && c !in s[..k]
    ensures IndexOf(s, c) == Some(k)
  {
    assert s[..k + 1][k] == c;
  }

  /** strrchr: the index of the last occurrence of c in s, if any. */
  function LastIndexOf(s: string, c: char): (r: Option<nat>)
    ensures r.None? <==> c !in s
    ensures r.Some? ==> r.value < |s| && s[r.value] == c && c !in s[r.value + 1..]
  {
    if s == [] then None
    else if s[|s| - 1] == c then Some(|s| - 1)
    else
      var r := LastIndexOf(s[..|s| - 1], c);
      assert r.Some? ==> s[..|s| - 1][r.value + 1..] + [s[|s| - 1]] == s[r.value + 1..];
      assert s == s[..|s| - 1] + [s[|s| - 1]];
      r
  }

  /** A c at k with none after it is what strrchr finds. */
  lemma LastIndexOfAt(s: string, c: char, k: nat)
    requires k < |s| && s[k] == c && c !in s[k + 1..]
    ensures LastIndexOf(s, c) == Some(k)
  {
    assert c in s;
  }

  /** Up to the last c of s + [c] + rest, when rest holds no c, is s. */
  lemma UpToLastOf(s: string, c: char, rest: string)
    requires c !in rest
    ensures UpToLast(s + [c] + rest, c) == s
  {
    var t := s + [c] + rest;
    assert t[|s| + 1..] == rest;
    LastIndexOfAt(t, c, |s|);
  }

  /** The text before the first c, or all of s when c does not occur. */
  function UpToFirst(s: string, c: char): (r: string)
    ensures StartsWith(s, r) && c !in r
    ensures |r| < |s| ==> s[|r|] == c
  {
    match IndexOf(s, c)
    case None => s
    case Some(k) => s[..k]
  }

  /** The text before the last c, or all of s when c does not occur. */
  function UpToLast(s: string, c: char): (r: string)
    ensures StartsWith(s, r)
    ensures |r| < |s| ==> s[|r|] == c && c !in s[|r| + 1..]
  {
    match LastIndexOf(s, c)
    case None => s
    case Some(k) => s[..k]
  }

  /** s without its trailing run of c. */
  function TrimTrailing(s: string, c: char): (r: string)
    ensures StartsWith(s, r)
    ensures r == [] || r[|r| - 1] != c
    ensures forall i | |r| <= i < |s| :: s[i] == c
  {
    if s != [] && s[|s| - 1] == c then TrimTrailing(s[..|s| - 1], c) else s
  }

  /** basename(3) from <libgen.h>: the last component of a path, trailing
      slashes ignored; "." for the empty path and "/" for a path of slashes. */
  function Basename(path: string): (r: string)
    ensures r != []
    ensures '/' in r ==> r == "/"
  {
    if path == [] then "."
    else
      var trimmed := TrimTrailing(path, '/');
      if trimmed == [] then "/"
      else match LastIndexOf(trimmed, '/')
        case None => trimmed
        case Some(k) => trimmed[k + 1..]
  }

  /** What basename(3) leaves in the string it is given: the C libraries
      write a NUL over the trailing slashes of a path that has a component
      (glibc's and musl's both do), so "ls.1/" reads "ls.1" afterwards; a
      path of slashes only is left as it is. */
  function BasenameTruncated(path: string): (r: string)
    ensures StartsWith(path, r)
    ensures r == path <==> path == [] || path[|path| - 1] != '/' || TrimTrailing(path, '/') == []
    ensures r != path ==> r != [] && r[|r| - 1] != '/' && forall i | |r| <= i < |path| :: path[i] == '/'
  {
    var trimmed := TrimTrailing(path, '/');
    if trimmed == [] then path else trimmed
  }

  /** The truncation keeps the basename: basename finds the same last
      component in what it leaves behind. */
  lemma BasenameKept(path: string)
    ensures Basename(BasenameTruncated(path)) == Basename(path)
  {
    var trimmed := TrimTrailing(path, '/');
    if trimmed != [] {
      assert TrimTrailing(trimmed, '/') == trimmed;
    }
  }

  /** One trailing '/' after a name is dropped. */
  lemma SlashDropped(s: string)
    requires s != [] && s[|s| - 1] != '/'
    ensures BasenameTruncated(s + "/") == s
  {
    assert (s + "/")[..|s|] == s;
    assert TrimTrailing(s, '/') == s;
  }

  /** A name that does not end in '/' is left as it is. */
  lemma BasenameTruncatedPlain(s: string)
    requires s != [] && s[|s| - 1] != '/'
    ensures BasenameTruncated(s) == s
  {
  }

  /** A name without '/' is its own basename. */
  lemma BasenamePlain(s: string)
    requires s != [] && '/' !in s
    ensures Basename(s) == s
  {
    assert TrimTrailing(s, '/') == s;
  }

  /** The basename of dir/file is file. */
  lemma BasenameOfPath(dir: string, file: string)
    requires file != [] && '/' !in file
    ensures Basename(dir + "/" + file) == file
  {
    var path := dir + "/" + file;
    assert TrimTrailing(path, '/') == path;
    assert path[|dir| + 1..] == file;
    LastIndexOfAt(path, '/', |dir|);
  }

  predicate IsLower(c: char) { 'a' <= c <= 'z' }
  predicate IsUpper(c: char) { 'A' <= c <= 'Z' }

  /** isalpha and isdigit in the C locale. */
  predicate IsAlpha(c: char) { IsLower(c) || IsUpper(c) }
  predicate IsDigit(c: char) { '0' <= c <= '9' }

  /** toupper and tolower in the C locale. */
  function ToUpper(c: char): (r: char)
    ensures IsAlpha(c) ==> IsUpper(r)
    ensures !IsLower(c) ==> r == c
  {
    if IsLower(c) then (c as int - 32) as char else c
  }

  function ToLower(c: char): (r: char)
    ensures IsAlpha(c) ==> IsLower(r)
    ensures !IsUpper(c) ==> r == c
  {
    if IsUpper(c) then (c as int + 32) as char else c
  }

  /** strcasecmp(a, b) == 0 in the C locale. */
  predicate EqualsIgnoreCase(a: string, b: string) {
    |a| == |b| && forall i | 0 <= i < |a| :: ToLower(a[i]) == ToLower(b[i])
  }

  /** The value of a string of decimal digits. */
  function DigitsValue(s: string): nat
    requires forall i | 0 <= i < |s| :: IsDigit(s[i])
  {
    if s == [] then 0
    else
      assert IsDigit(s[|s| - 1]);
      10 * DigitsValue(s[..|s| - 1]) + (s[|s| - 1] as int - '0' as int)
  }

  /** The longest prefix of s made of digits of the given base (8, 10 or 16). */
  function DigitPrefixLength(s: string, base: nat): (n: nat)
    ensures n <= |s|
  {
    if s != [] && DigitOf(s[0], base).Some? then 1 + DigitPrefixLength(s[1..], base) else 0
  }

  function DigitOf(c: char, base: nat): Option<nat> {
    if '0' <= c <= '9' && (c as int - '0' as int) < base then Some(c as int - '0' as int)
    else if base == 16 && 'a' <= c <= 'f' then Some(c as int - 'a' as int + 10)
    else if base == 16 && 'A' <= c <= 'F' then Some(c as int - 'A' as int + 10)
    else None
  }

  /** The value of the first n characters of s, read as digits of base. */
  function PrefixValue(s: string, n: nat, base: nat): nat
    requires n <= DigitPrefixLength(s, base)
  {
    if n == 0 then 0
    else
      DigitPrefixBound(s, n - 1, base);
      PrefixValue(s, n - 1, base) * base + DigitOf(s[n - 1], base).value
  }

  lemma {:induction false} DigitPrefixBound(s: string, i: nat, base: nat)
    requires i < DigitPrefixLength(s, base)
    ensures DigitOf(s[i], base).Some?
  {
    if i > 0 {
      DigitPrefixBound(s[1..], i - 1, base);
    }
  }

  /** strtoul(s, &end, base) for base 10 or base 0 (a "0x" prefix selects
      hexadecimal, a leading "0" octal): the value read and the index of
      the first character not read. */
  function StrToUL(s: string, base0: bool): (r: (nat, nat))
    ensures r.1 <= |s|
  {
    if base0 && |s| >= 3 && s[0] == '0' && (s[1] == 'x' || s[1] == 'X') && DigitOf(s[2], 16).Some? then
      var n := DigitPrefixLength(s[2..], 16);
      (PrefixValue(s[2..], n, 16), n + 2)
    else
      var base := if base0 && s != [] && s[0] == '0' then 8 else 10;
      var n := DigitPrefixLength(s, base);
      (PrefixValue(s, n, base), n)
  }

  /** The digits of n in base 10, most significant first. */
  function NatDigits(n: nat): (r: string)
    ensures r != [] && forall i | 0 <= i < |r| :: IsDigit(r[i])
    ensures n > 0 ==> r[0] != '0'
  {
    if n < 10 then [('0' as int + n) as char]
    else NatDigits(n / 10) + [('0' as int + n % 10) as char]
  }

  /** printf("%d", n). */
  function Decimal(n: int): (r: string)
    ensures r != []
  {
    if n < 0 then "-" + NatDigits(-n) else NatDigits(n)
  }

  /** Reading back the digits printed for n gives n. */
  lemma {:induction false} NatDigitsValue(n: nat)
    ensures DigitsValue(NatDigits(n)) == n
  {
    if n >= 10 {
      NatDigitsValue(n / 10);
      var d := NatDigits(n);
      assert d[..|d| - 1] == NatDigits(n / 10);
    }
  }

  /** The digits printed for n are exactly what strtoul reads in base 10. */
  lemma {:induction false} DecimalReadsBack(n: nat)
    ensures StrToUL(Decimal(n), false) == (n, |Decimal(n)|)
  {
    var d := NatDigits(n);
    DigitsPrefixLengthAll(d);
    PrefixValueIsDigitsValue(d, |d|);
    NatDigitsValue(n);
    assert d[..|d|] == d;
  }

  lemma {:induction false} DigitsPrefixLengthAll(s: string)
    requires forall i | 0 <= i < |s| :: IsDigit(s[i])
    ensures DigitPrefixLength(s, 10) == |s|
  {
    if s != [] {
      DigitsPrefixLengthAll(s[1..]);
    }
  }

  lemma {:induction false} PrefixValueIsDigitsValue(s: string, n: nat)
    requires forall i | 0 <= i < |s| :: IsDigit(s[i])
    requires n <= |s| && n <= DigitPrefixLength(s, 10)
    ensures PrefixValue(s, n, 10) == DigitsValue(s[..n])
  {
    if n > 0 {
      PrefixValueIsDigitsValue(s, n - 1);
      assert s[..n][..n - 1] == s[..n - 1];
    }
  }

  /** The concatenation of a sequence of strings. */
  function Concat(parts: seq<string>): (r: string)
    ensures |parts| == 1 ==> r == parts[0]
  {
    if parts == [] then "" else Concat(parts[..|parts| - 1]) + parts[|parts| - 1]
  }

  lemma {:induction false} ConcatAppend(a: seq<string>, b: seq<string>)
    ensures Concat(a + b) == Concat(a) + Concat(b)
  {
    if b == [] {
      assert a + b == a;
    } else {
      ConcatAppend(a, b[..|b| - 1]);
      assert (a + b)[..|a + b| - 1] == a + b[..|b| - 1];
    }
  }

  /** stpncpy(buffer + at, s, |s|): the characters of s are copied to
      buffer[at..] and nothing else changes; the result is the index just
      past them. */
  method StpNCpy(buffer: array<char>, at: nat, s: string) returns (end: nat)
    requires at + |s| <= buffer.Length
    modifies buffer
    ensures end == at + |s|
    ensures buffer[at..end] == s && buffer[..end] == old(buffer[..at]) + s
    ensures buffer[..at] == old(buffer[..at]) && buffer[end..] == old(buffer[end..])
  {
    var i := 0;
    while i < |s|
      invariant 0 <= i <= |s|
      invariant buffer[at..at + i] == s[..i]
      invariant forall j | 0 <= j < buffer.Length && !(at <= j < at + i) :: buffer[j] == old(buffer[j])
    {
      buffer[at + i] := s[i];
      i := i + 1;
    }
    end := at + |s|;
    assert buffer[..at] == old(buffer[..at]);
  }

  /** A prefix one element longer is the prefix and that element. */
  lemma TakeSnoc<T>(s: seq<T>, i: nat)
    requires i < |s|
    ensures s[..i + 1] == s[..i] + [s[i]]
  {
  }
}
