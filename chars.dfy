/**
 * Character classes and string helpers shared by the model: the parts of
 * Python's `str` behaviour (isdigit, isspace, strip, lower, upper, `in`,
 * `startswith`, `join`, `str(int)`, `int(str)`) that the modelled code uses.
 *
 * Python's Unicode-wide classes are narrowed: a digit is an ASCII digit, an
 * Arabic-Indic digit (U+0660-U+0669) or an Extended Arabic-Indic digit
 * (U+06F0-U+06F9); case mapping is ASCII only.
 */
module Chars {

  // ---------------------------------------------------------------- digits

  predicate IsAsciiDigit(c: char) { '0' <= c <= '9' }

  /** U+0660 ARABIC-INDIC DIGIT ZERO .. U+0669 ARABIC-INDIC DIGIT NINE */
  predicate IsArabicIndicDigit(c: char) { '\U{0660}' <= c <= '\U{0669}' }

  /** U+06F0 .. U+06F9, the Extended Arabic-Indic (Persian) digits */
  predicate IsExtendedArabicIndicDigit(c: char) { '\U{06F0}' <= c <= '\U{06F9}' }

  /** Python's `\d` and `str.isdigit` on the digit blocks this system meets. */
  predicate IsDigit(c: char) {
    IsAsciiDigit(c) || IsArabicIndicDigit(c) || IsExtendedArabicIndicDigit(c)
  }

  /** The numeric value `int()` gives a digit character. */
  function DigitValue(c: char): (v: nat)
    requires IsDigit(c)
    ensures v < 10
    ensures IsAsciiDigit(c) ==> c == DigitChar(v)
  {
    if IsAsciiDigit(c) then c as int - '0' as int
    else if IsArabicIndicDigit(c) then c as int - 0x0660
    else c as int - 0x06F0
  }

  /** The ASCII digit for a value below ten. */
  function DigitChar(d: nat): (c: char)
    requires d < 10
    ensures IsAsciiDigit(c)
  {
    ('0' as int + d) as char
  }

  predicate AllDigits(s: string) { forall i :: 0 <= i < |s| ==> IsDigit(s[i]) }

  /** `int(s)` for a non-empty run of digit characters. */
  function DigitsValue(s: string): nat
    requires AllDigits(s)
  {
    if s == [] then 0 else DigitsValue(s[..|s| - 1]) * 10 + DigitValue(s[|s| - 1])
  }

  /** Number of consecutive digit characters of `s` starting at `p`. */
  function DigitRun(s: string, p: nat): (n: nat)
    requires p <= |s|
    ensures p + n <= |s|
    ensures forall i :: p <= i < p + n ==> IsDigit(s[i])
    ensures p + n < |s| ==> !IsDigit(s[p + n])
    decreases |s| - p
  {
    if p < |s| && IsDigit(s[p]) then 1 + DigitRun(s, p + 1) else 0
  }

  // ------------------------------------------------------- Unicode blocks

  /** A character of the Arabic block U+0600-U+06FF. */
  predicate IsArabicChar(c: char) { '\U{0600}' <= c <= '\U{06FF}' }

  predicate HasArabicChar(s: string) { exists i :: 0 <= i < |s| && IsArabicChar(s[i]) }

  /**
   * `"a" <= ch.lower() <= "z"`: the ASCII letters, the Kelvin sign (which
   * lowers to 'k') and the dotted capital I (which lowers to "i" followed by a
   * combining dot, a string that sorts between "a" and "z").
   */
  predicate LowersToLatin(c: char) {
    IsAsciiLetter(c) || c == '\U{212A}' || c == '\U{0130}'
  }

  predicate HasLatinChar(s: string) {
    exists i :: 0 <= i < |s| && LowersToLatin(s[i])
  }

  // ---------------------------------------------------------- whitespace

  /** Python's `str.isspace`, which `strip()` and the regex class `\s` also use. */
  predicate IsSpace(c: char) {
    ('\t' <= c <= '\r') || ('\U{001C}' <= c <= '\U{001F}') || c == ' ' ||
    c == '\U{0085}' || c == '\U{00A0}' || c == '\U{1680}' ||
    ('\U{2000}' <= c <= '\U{200A}') || c == '\U{2028}' || c == '\U{2029}' ||
    c == '\U{202F}' || c == '\U{205F}' || c == '\U{3000}'
  }

  predicate NoSpace(s: string) { forall i :: 0 <= i < |s| ==> !IsSpace(s[i]) }

  predicate AllSpace(s: string) { forall i :: 0 <= i < |s| ==> IsSpace(s[i]) }

  /** `s.lstrip()` */
  function StripLeft(s: string): string
  {
    if s != [] && IsSpace(s[0]) then StripLeft(s[1..]) else s
  }

  /** `lstrip()` removes a whitespace prefix and leaves a text that does not start with whitespace. */
  lemma {:induction false} StripLeftSpec(s: string)
    ensures var r := StripLeft(s);
      && |r| <= |s| && r == s[|s| - |r|..]
      && AllSpace(s[..|s| - |r|])
      && (r != [] ==> !IsSpace(r[0]))
  {
    if s != [] && IsSpace(s[0]) {
      StripLeftSpec(s[1..]);
      var r := StripLeft(s);
      assert s[..|s| - |r|] == [s[0]] + s[1..][..|s| - 1 - |r|];
    }
  }

  /** `s.rstrip()` */
  function StripRight(s: string): string
  {
    if s != [] && IsSpace(s[|s| - 1]) then StripRight(s[..|s| - 1]) else s
  }

  /** `rstrip()` removes a whitespace suffix and leaves a text that does not end with whitespace. */
  lemma {:induction false} StripRightSpec(s: string)
    ensures var r := StripRight(s);
      && |r| <= |s| && r == s[..|r|]
      && AllSpace(s[|r|..])
      && (r != [] ==> !IsSpace(r[|r| - 1]))
  {
    if s != [] && IsSpace(s[|s| - 1]) {
      StripRightSpec(s[..|s| - 1]);
      var r := StripRight(s);
      assert s[|r|..] == s[..|s| - 1][|r|..] + [s[|s| - 1]];
    }
  }

  /** `s.strip()` */
  function Strip(s: string): string
  {
    StripRight(StripLeft(s))
  }

  /** The shape of `strip()`: `s` is `r` with whitespace on both sides, and `r`
      neither starts nor ends with whitespace. */
  lemma StripShape(s: string)
    ensures var r := Strip(s);
      exists a, b :: 0 <= a <= b <= |s| && r == s[a..b] && AllSpace(s[..a]) && AllSpace(s[b..])
    ensures Strip(s) != [] ==> !IsSpace(Strip(s)[0]) && !IsSpace(Strip(s)[|Strip(s)| - 1])
  {
    var l := StripLeft(s);
    var r := StripRight(l);
    StripLeftSpec(s);
    StripRightSpec(l);
    var a := |s| - |l|;
    assert r == s[a..a + |r|];
    assert AllSpace(s[a + |r|..]) by {
      assert s[a + |r|..] == l[|r|..];
    }
  }

  /** `strip()` is idempotent. */
  lemma StripIdempotent(s: string)
    ensures Strip(Strip(s)) == Strip(s)
  {
    var r := Strip(s);
    StripShape(s);
    StripLeftNoop(r);
    StripRightNoop(r);
  }

  lemma StripLeftNoop(s: string)
    requires s == [] || !IsSpace(s[0])
    ensures StripLeft(s) == s
  {
  }

  lemma StripRightNoop(s: string)
    requires s == [] || !IsSpace(s[|s| - 1])
    ensures StripRight(s) == s
  {
  }

  /** `strip()` gives "" exactly for whitespace-only input. */
  lemma StripEmptyIff(s: string)
    ensures Strip(s) == [] <==> AllSpace(s)
  {
    var l := StripLeft(s);
    StripLeftSpec(s);
    StripLeftEmptyIff(s);
    StripRightEmptyIff(l);
    if l != [] {
      assert !IsSpace(l[0]);
    }
  }

  lemma {:induction false} StripLeftEmptyIff(s: string)
    ensures StripLeft(s) == [] <==> AllSpace(s)
  {
    if s != [] && IsSpace(s[0]) {
      StripLeftEmptyIff(s[1..]);
      assert AllSpace(s) <==> AllSpace(s[1..]) by {
        assert forall i :: 1 <= i < |s| ==> s[i] == s[1..][i - 1];
      }
    }
  }

  lemma {:induction false} StripRightEmptyIff(s: string)
    ensures StripRight(s) == [] <==> AllSpace(s)
  {
    if s != [] && IsSpace(s[|s| - 1]) {
      StripRightEmptyIff(s[..|s| - 1]);
      assert AllSpace(s) <==> AllSpace(s[..|s| - 1]) by {
        assert forall i :: 0 <= i < |s| - 1 ==> s[i] == s[..|s| - 1][i];
      }
    }
  }

  // ------------------------------------------------------------------ case

  predicate IsUpper(c: char) { 'A' <= c <= 'Z' }

  predicate IsLower(c: char) { 'a' <= c <= 'z' }

  predicate IsAsciiLetter(c: char) { IsUpper(c) || IsLower(c) }

  /** `c.lower()` on ASCII letters; every other character is left as it is. */
  function Lower(c: char): (r: char)
    ensures !IsUpper(r)
  {
    if IsUpper(c) then (c as int + 32) as char else c
  }

  /** `c.upper()` on ASCII letters; every other character is left as it is. */
  function Upper(c: char): (r: char)
    ensures !IsLower(r)
  {
    if IsLower(c) then (c as int - 32) as char else c
  }

  function LowerStr(s: string): (r: string)
    ensures |r| == |s|
  {
    seq(|s|, i requires 0 <= i < |s| => Lower(s[i]))
  }

  function UpperStr(s: string): (r: string)
    ensures |r| == |s|
  {
    seq(|s|, i requires 0 <= i < |s| => Upper(s[i]))
  }

  // ------------------------------------------------------------- searching

  /** Python's `sub in s` */
  predicate IsInfix(sub: string, s: string) {
    exists i | 0 <= i <= |s| - |sub| :: InfixAt(sub, s, i)
  }

  /** `sub` occurs in `s` at index `i`. */
  predicate InfixAt(sub: string, s: string, i: int) {
    0 <= i <= |s| - |sub| && s[i..i + |sub|] == sub
  }

  predicate StartsWith(s: string, prefix: string) {
    |prefix| <= |s| && s[..|prefix|] == prefix
  }

  predicate EndsWith(s: string, suffix: string) {
    |suffix| <= |s| && s[|s| - |suffix|..] == suffix
  }

  /** Python's `any(w in s for w in words)` */
  predicate ContainsAny(s: string, words: seq<string>) {
    exists j :: 0 <= j < |words| && IsInfix(words[j], s)
  }

  // --------------------------------------------------------------- joining

  /** Python's `sep.join(parts)` */
  function Join(parts: seq<string>, sep: string): string
  {
    if parts == [] then []
    else if |parts| == 1 then parts[0]
    else Join(parts[..|parts| - 1], sep) + sep + parts[|parts| - 1]
  }

  /** Joining two non-empty lists puts one separator between their joins. */
  lemma {:induction false} JoinAppend(a: seq<string>, b: seq<string>, sep: string)
    requires a != [] && b != []
    ensures Join(a + b, sep) == Join(a, sep) + sep + Join(b, sep)
  {
    var ab := a + b;
    assert ab[..|ab| - 1] == a + b[..|b| - 1];
    if |b| == 1 {
      assert ab[..|ab| - 1] == a;
    } else {
      JoinAppend(a, b[..|b| - 1], sep);
    }
  }

  /** Joining a longer list keeps the join of a leading part as a prefix. */
  lemma JoinPrefix(a: seq<string>, b: seq<string>, sep: string)
    requires a != []
    ensures StartsWith(Join(a + b, sep), Join(a, sep))
  {
    if b == [] {
      assert a + b == a;
    } else {
      JoinAppend(a, b, sep);
    }
  }

  /** Joining a longer list keeps the join of a trailing part as a suffix. */
  lemma JoinSuffix(a: seq<string>, b: seq<string>, sep: string)
    requires b != []
    ensures EndsWith(Join(a + b, sep), Join(b, sep))
  {
    if a == [] {
      assert a + b == b;
    } else {
      JoinAppend(a, b, sep);
    }
  }

  /** The 52 ASCII letters, upper case first. */
  const AsciiLetters: string := CharRange('A', 26) + CharRange('a', 26)

  /** The `n` characters from `first` on, in code order. */
  function CharRange(first: char, n: nat): (r: string)
    requires first as int + n <= 0xD800
    ensures |r| == n && forall i :: 0 <= i < n ==> r[i] as int == first as int + i
  {
    if n == 0 then [] else CharRange(first, n - 1) + [(first as int + n - 1) as char]
  }

  /** `AsciiLetters` is "A".."Z" followed by "a".."z": every ASCII letter once, and nothing else. */
  lemma AsciiLettersExact()
    ensures |AsciiLetters| == 52
    ensures forall i :: 0 <= i < |AsciiLetters| ==> IsAsciiLetter(AsciiLetters[i])
    ensures forall c :: IsAsciiLetter(c) ==> c in AsciiLetters
    ensures forall i, j :: 0 <= i < j < |AsciiLetters| ==> AsciiLetters[i] != AsciiLetters[j]
  {
    var upper, lower := CharRange('A', 26), CharRange('a', 26);
    assert AsciiLetters == upper + lower by {
      forall i | 0 <= i < 52 ensures AsciiLetters[i] == (upper + lower)[i] { }
    }
    forall i | 0 <= i < 52
      ensures AsciiLetters[i] as int == if i < 26 then 'A' as int + i else 'a' as int + i - 26
    {
      if i < 26 { assert AsciiLetters[i] == upper[i]; } else { assert AsciiLetters[i] == lower[i - 26]; }
    }
    forall c | IsAsciiLetter(c) ensures c in AsciiLetters {
      if IsUpper(c) {
        assert AsciiLetters[c as int - 'A' as int] == c;
      } else {
        assert AsciiLetters[26 + c as int - 'a' as int] == c;
      }
    }
  }

  // ------------------------------------------------------------ numbers

  /** `str(n)` for a natural number. */
  function NatToDecimal(n: nat): (r: string)
    ensures r != [] && forall i :: 0 <= i < |r| ==> IsAsciiDigit(r[i])
  {
    if n < 10 then [DigitChar(n)] else NatToDecimal(n / 10) + [DigitChar(n % 10)]
  }

  /** `str(i)` for any integer. */
  function IntToDecimal(i: int): string
  {
    if i < 0 then "-" + NatToDecimal(-i) else NatToDecimal(i)
  }

  function Zeros(n: nat): (r: string)
    ensures |r| == n && forall i :: 0 <= i < n ==> r[i] == '0'
  {
    if n == 0 then [] else Zeros(n - 1) + ['0']
  }

  /** `f"{n:0{width}d}"` for a natural number. */
  function ZeroPad(n: nat, width: nat): (r: string)
    ensures |r| >= width
    ensures forall i :: 0 <= i < |r| ==> IsAsciiDigit(r[i])
  {
    var d := NatToDecimal(n);
    if |d| >= width then d else Zeros(width - |d|) + d
  }

  /** Reading back what `str(n)` wrote gives `n`. */
  lemma {:induction false} NatToDecimalValue(n: nat)
    ensures AllDigits(NatToDecimal(n)) && DigitsValue(NatToDecimal(n)) == n
  {
    var r := NatToDecimal(n);
    if n >= 10 {
      NatToDecimalValue(n / 10);
      assert r[..|r| - 1] == NatToDecimal(n / 10);
    }
  }

  /** Leading zeros do not change the value of a digit string. */
  lemma {:induction false} ZerosValue(k: nat, s: string)
    requires AllDigits(s)
    ensures AllDigits(Zeros(k) + s) && DigitsValue(Zeros(k) + s) == DigitsValue(s)
  {
    if s == [] {
      ZerosOnlyValue(k);
      assert Zeros(k) + s == Zeros(k);
    } else {
      var t := Zeros(k) + s;
      ZerosValue(k, s[..|s| - 1]);
      assert t[..|t| - 1] == Zeros(k) + s[..|s| - 1];
    }
  }

  lemma {:induction false} ZerosOnlyValue(k: nat)
    ensures AllDigits(Zeros(k)) && DigitsValue(Zeros(k)) == 0
  {
    if k > 0 {
      ZerosOnlyValue(k - 1);
      assert Zeros(k)[..k - 1] == Zeros(k - 1);
    }
  }

  /** Reading back a zero-padded number gives the number. */
  lemma ZeroPadValue(n: nat, width: nat)
    ensures AllDigits(ZeroPad(n, width)) && DigitsValue(ZeroPad(n, width)) == n
  {
    NatToDecimalValue(n);
    var d := NatToDecimal(n);
    if |d| < width {
      ZerosValue(width - |d|, d);
    }
  }

  /** A number below 10^k has at most k decimal digits. */
  lemma {:induction false} NatToDecimalLength(n: nat, k: nat, bound: nat)
    requires bound == Pow10(k) && 1 <= k && n < bound
    ensures |NatToDecimal(n)| <= k
  {
    if n >= 10 {
      assert Pow10(1) == 10;
      assert k >= 2;
      Pow10Step(k);
      NatToDecimalLength(n / 10, k - 1, Pow10(k - 1));
    }
  }

  function Pow10(k: nat): (p: nat)
    ensures p >= 1
  {
    if k == 0 then 1 else 10 * Pow10(k - 1)
  }

  lemma Pow10Step(k: nat)
    requires k >= 1
    ensures Pow10(k) == 10 * Pow10(k - 1)
  {
  }
}
