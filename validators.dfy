/**
 * Field normalizers of src/postprocessing/validators.py: pure functions from
 * raw OCR text to a typed canonical value and a validity flag. They never
 * raise; a text that does not parse gives `valid == false` and the
 * whitespace-squashed input.
 *
 * Each regular expression is written as a scanner that reproduces Python's
 * `re.search`: the leftmost start position wins, and at that position the
 * first alternative found by greedy backtracking wins. Each scanner is proved
 * equivalent to a declarative "the pattern occurs at p" predicate.
 */
module Validators {
  import opened Chars
  import opened Outcomes
  import Sorting

  /** The dict `{"type": kind, "value": value, "valid": valid}`. */
  datatype Normalized = Normalized(kind: string, value: string, valid: bool)

  // ------------------------------------------------------------ ar2en_digits

  function Ar2EnChar(c: char): char
  {
    if IsArabicIndicDigit(c) then DigitChar(c as int - 0x0660) else c
  }

  /** `ar2en_digits`: Arabic-Indic digits become the ASCII digit of the same value. */
  function Ar2EnDigits(s: string): (r: string)
    ensures |r| == |s|
    ensures forall i :: 0 <= i < |s| && IsArabicIndicDigit(s[i]) ==>
              IsAsciiDigit(r[i]) && DigitValue(r[i]) == DigitValue(s[i])
    ensures forall i :: 0 <= i < |s| && !IsArabicIndicDigit(s[i]) ==> r[i] == s[i]
    ensures forall i :: 0 <= i < |r| ==> !IsArabicIndicDigit(r[i])
  {
    seq(|s|, i requires 0 <= i < |s| => Ar2EnChar(s[i]))
  }

  /** The inverse direction: ASCII digits written as Arabic-Indic digits. */
  function ToArabicIndic(s: string): (r: string)
    ensures |r| == |s|
  {
    seq(|s|, i requires 0 <= i < |s| =>
      if IsAsciiDigit(s[i]) then (0x0660 + DigitValue(s[i])) as char else s[i])
  }

  /** Translating back undoes the change of digit system. */
  lemma Ar2EnOfArabicIndic(s: string)
    ensures Ar2EnDigits(ToArabicIndic(s)) == Ar2EnDigits(s)
  {
    var a := ToArabicIndic(s);
    forall i | 0 <= i < |s| ensures Ar2EnDigits(a)[i] == Ar2EnDigits(s)[i] {
      if IsAsciiDigit(s[i]) {
        assert IsArabicIndicDigit(a[i]);
        assert DigitValue(a[i]) == DigitValue(s[i]);
      }
    }
  }

  /** `ar2en_digits` is idempotent. */
  lemma Ar2EnIdempotent(s: string)
    ensures Ar2EnDigits(Ar2EnDigits(s)) == Ar2EnDigits(s)
  {
  }

  // ----------------------------------------------------------- squash_spaces

  /** `re.sub(r"\s+", " ", s)`: every maximal run of whitespace becomes one space. */
  function Collapse(s: string): (r: string)
    ensures |r| <= |s|
    decreases |s|
  {
    if s == [] then []
    else if IsSpace(s[0]) then
      var rest := StripLeft(s[1..]);
      StripLeftSpec(s[1..]);
      [' '] + Collapse(rest)
    else [s[0]] + Collapse(s[1..])
  }

  /** `squash_spaces(s)` */
  function SquashSpaces(s: string): string
  {
    Strip(Collapse(s))
  }

  /** Whitespace in `s` is single ' ' characters. */
  predicate SingleSpaced(s: string) {
    s == [] ||
    ((IsSpace(s[0]) ==> s[0] == ' ' && (|s| > 1 ==> !IsSpace(s[1]))) && SingleSpaced(s[1..]))
  }

  /** `s` without its whitespace characters. */
  function NonSpace(s: string): string
  {
    if s == [] then [] else (if IsSpace(s[0]) then [] else [s[0]]) + NonSpace(s[1..])
  }

  lemma {:induction false} CollapseSingleSpaced(s: string)
    ensures SingleSpaced(Collapse(s))
    ensures Collapse(s) != [] && IsSpace(s[0]) ==> Collapse(s)[0] == ' '
    ensures Collapse(s) != [] && !IsSpace(s[0]) ==> Collapse(s)[0] == s[0]
    decreases |s|
  {
    if s != [] {
      if IsSpace(s[0]) {
        var rest := StripLeft(s[1..]);
        StripLeftSpec(s[1..]);
        CollapseSingleSpaced(rest);
        var c := Collapse(rest);
        assert c != [] ==> !IsSpace(c[0]);
      } else {
        CollapseSingleSpaced(s[1..]);
      }
    }
  }

  lemma {:induction false} NonSpaceAppend(a: string, b: string)
    ensures NonSpace(a + b) == NonSpace(a) + NonSpace(b)
  {
    if a != [] {
      NonSpaceAppend(a[1..], b);
      assert (a + b)[1..] == a[1..] + b;
    } else {
      assert a + b == b;
    }
  }

  lemma {:induction false} NonSpaceAllSpace(s: string)
    ensures NonSpace(s) == [] <==> AllSpace(s)
  {
    if s != [] {
      NonSpaceAllSpace(s[1..]);
      assert AllSpace(s) <==> IsSpace(s[0]) && AllSpace(s[1..]) by {
        assert forall i :: 1 <= i < |s| ==> s[i] == s[1..][i - 1];
      }
    }
  }

  lemma {:induction false} CollapseNonSpace(s: string)
    ensures NonSpace(Collapse(s)) == NonSpace(s)
    decreases |s|
  {
    if s != [] {
      var tail := s[1..];
      assert NonSpace(s) == (if IsSpace(s[0]) then [] else [s[0]]) + NonSpace(tail);
      if IsSpace(s[0]) {
        var rest := StripLeft(tail);
        StripLeftSpec(tail);
        var pre := tail[..|tail| - |rest|];
        assert tail == pre + rest;
        CollapseNonSpace(rest);
        NonSpaceAppend(pre, rest);
        NonSpaceAllSpace(pre);
        var c := Collapse(rest);
        assert Collapse(s) == [' '] + c;
        assert ([' '] + c)[1..] == c;
      } else {
        CollapseNonSpace(tail);
        var c := Collapse(tail);
        assert Collapse(s) == [s[0]] + c;
        assert ([s[0]] + c)[1..] == c;
      }
    }
  }

  /** On a single-spaced text, collapsing changes nothing. */
  lemma {:induction false} CollapseNoop(s: string)
    requires SingleSpaced(s)
    ensures Collapse(s) == s
  {
    if s != [] {
      var tail := s[1..];
      assert SingleSpaced(tail);
      CollapseNoop(tail);
      if IsSpace(s[0]) {
        assert s[0] == ' ';
        assert tail == [] || !IsSpace(tail[0]);
        StripLeftNoop(tail);
        assert Collapse(s) == [' '] + Collapse(tail);
      } else {
        assert Collapse(s) == [s[0]] + Collapse(tail);
      }
      assert s == [s[0]] + tail;
    }
  }

  lemma {:induction false} SingleSpacedSuffix(s: string, k: nat)
    requires k <= |s| && SingleSpaced(s)
    ensures SingleSpaced(s[k..])
  {
    if k > 0 {
      SingleSpacedSuffix(s[1..], k - 1);
      assert s[1..][k - 1..] == s[k..];
    }
  }

  lemma {:induction false} SingleSpacedPrefix(s: string, k: nat)
    requires k <= |s| && SingleSpaced(s)
    ensures SingleSpaced(s[..k])
  {
    if k > 0 {
      SingleSpacedPrefix(s[1..], k - 1);
      assert s[..k][1..] == s[1..][..k - 1];
    }
  }

  /** `squash_spaces` leaves no whitespace at either end. */
  lemma SquashSpacesTrimmed(s: string)
    ensures var r := SquashSpaces(s); r != [] ==> !IsSpace(r[0]) && !IsSpace(r[|r| - 1])
  {
    var l := StripLeft(Collapse(s));
    var r := StripRight(l);
    StripLeftSpec(Collapse(s));
    StripRightSpec(l);
    if r != [] {
      assert r[0] == l[0];
    }
  }

  /** Inside, `squash_spaces` leaves only single ' ' characters. */
  lemma SquashSpacesSingleSpaced(s: string)
    ensures var r := SquashSpaces(s); SingleSpaced(r)
  {
    var c := Collapse(s);
    CollapseSingleSpaced(s);
    var l := StripLeft(c);
    StripLeftSpec(c);
    SingleSpacedSuffix(c, |c| - |l|);
    var r := StripRight(l);
    StripRightSpec(l);
    SingleSpacedPrefix(l, |r|);
    assert l[..|r|] == r;
    assert r == SquashSpaces(s);
  }

  /** Stripping on the left removes only whitespace. */
  lemma NonSpaceStripLeft(c: string)
    ensures NonSpace(StripLeft(c)) == NonSpace(c)
  {
    var l := StripLeft(c);
    StripLeftSpec(c);
    var pre := c[..|c| - |l|];
    assert c == pre + l;
    NonSpaceAppend(pre, l);
    NonSpaceAllSpace(pre);
  }

  /** Stripping on the right removes only whitespace. */
  lemma NonSpaceStripRight(l: string)
    ensures NonSpace(StripRight(l)) == NonSpace(l)
  {
    var r := StripRight(l);
    StripRightSpec(l);
    var post := l[|r|..];
    assert l == r + post;
    NonSpaceAppend(r, post);
    NonSpaceAllSpace(post);
  }

  /** `squash_spaces` keeps every non-whitespace character, in order. */
  lemma SquashSpacesNonSpace(s: string)
    ensures NonSpace(SquashSpaces(s)) == NonSpace(s)
  {
    var c := Collapse(s);
    CollapseNonSpace(s);
    NonSpaceStripLeft(c);
    NonSpaceStripRight(StripLeft(c));
  }

  /** `squash_spaces` is idempotent. */
  lemma SquashSpacesIdempotent(s: string)
    ensures SquashSpaces(SquashSpaces(s)) == SquashSpaces(s)
  {
    var r := SquashSpaces(s);
    SquashSpacesSingleSpaced(s);
    CollapseNoop(r);
    StripIdempotent(Collapse(s));
  }

  /** `squash_spaces` gives "" exactly for whitespace-only input. */
  lemma SquashSpacesEmptyIff(s: string)
    ensures SquashSpaces(s) == [] <==> AllSpace(s)
  {
    var c := Collapse(s);
    StripEmptyIff(c);
    CollapseNonSpace(s);
    NonSpaceAllSpace(c);
    NonSpaceAllSpace(s);
  }


  // ------------------------------------------------------------------- title

  /** Python's `str.title()` (ASCII letters are the cased characters). */
  function TitleFrom(s: string, prevCased: bool): (r: string)
    ensures |r| == |s|
  {
    if s == [] then []
    else [if prevCased then Lower(s[0]) else Upper(s[0])] + TitleFrom(s[1..], IsAsciiLetter(s[0]))
  }

  function Title(s: string): string { TitleFrom(s, false) }

  // -------------------------------------------------------------- re.search

  /**
   * `re.search` over a text of length `n`: the matcher `at` is tried at `p`,
   * `p + 1`, ..., `n` in turn, and the first position where it matches is
   * returned with what it matched.
   */
  function FirstMatch<T>(n: nat, p: nat, at: nat -> Option<T>): (r: Option<(nat, T)>)
    requires p <= n
    ensures r.Some? ==> p <= r.value.0 <= n && at(r.value.0) == Some(r.value.1)
    ensures r.Some? ==> forall q :: p <= q < r.value.0 ==> at(q).None?
    ensures r.None? ==> forall q :: p <= q <= n ==> at(q).None?
    decreases n - p
  {
    if at(p).Some? then Some((p, at(p).value))
    else if p == n then None
    else FirstMatch(n, p + 1, at)
  }

  // --------------------------------------------------------------------- CIN

  /** Length of the whitespace run of `s` starting at `p`. */
  function SpaceRun(s: string, p: nat): (n: nat)
    requires p <= |s|
    ensures p + n <= |s|
    ensures forall i :: p <= i < p + n ==> IsSpace(s[i])
    ensures p + n < |s| ==> !IsSpace(s[p + n])
    decreases |s| - p
  {
    if p < |s| && IsSpace(s[p]) then 1 + SpaceRun(s, p + 1) else 0
  }

  function Min(a: int, b: int): int { if a <= b then a else b }

  /** A whole CIN: `[A-Z]{1,2}\d{5,6}`. */
  ghost predicate IsCinValue(v: string) {
    || (6 <= |v| <= 7 && IsUpper(v[0]) && AllDigits(v[1..]))
    || (7 <= |v| <= 8 && IsUpper(v[0]) && IsUpper(v[1]) && AllDigits(v[2..]))
  }

  /**
   * `([A-Z]{1,2})\s*[- ]?(\d{5,6})` matched at `p`, as backtracking finds it.
   * Taking fewer letters or fewer spaces never helps: the character given
   * back is a letter or whitespace, where no digit group can start.
   */
  function CinAt(t: string, p: nat): (r: Option<string>)
    requires p <= |t|
    ensures r.Some? ==> IsCinValue(r.value)
  {
    if p < |t| && IsUpper(t[p]) then
      var q := CinLettersEnd(t, p);
      var d := CinDigitsStart(t, q);
      var n := DigitRun(t, d);
      if n >= 5 then
        var v := t[p..q] + t[d..d + Min(n, 6)];
        assert v[q - p..] == t[d..d + Min(n, 6)];
        assert v[0] == t[p];
        assert q == p + 2 ==> v[1] == t[p + 1];
        Some(v)
      else None
    else None
  }

  /** The end of `[A-Z]{1,2}` taken greedily from an uppercase letter at `p`. */
  function CinLettersEnd(t: string, p: nat): (q: nat)
    requires p < |t|
    ensures p < q <= |t| && q <= p + 2
  {
    if p + 1 < |t| && IsUpper(t[p + 1]) then p + 2 else p + 1
  }

  /** Where the digits start after `\s*[- ]?` from `q`. */
  function CinDigitsStart(t: string, q: nat): (d: nat)
    requires q <= |t|
    ensures q <= d <= |t|
  {
    var r := q + SpaceRun(t, q);
    if r < |t| && t[r] == '-' then r + 1 else r
  }

  /** `q` is the leftmost position from `p` on where the CIN pattern matches. */
  ghost predicate FirstCinAt(t: string, p: nat, q: nat) {
    p <= q <= |t| && CinAt(t, q).Some? && forall q' :: p <= q' < q ==> CinAt(t, q').None?
  }

  /**
   * `re.search` for the CIN pattern, from position `p` on: the start of the
   * leftmost match and its value.
   */
  function CinSearch(t: string, p: nat): (r: Option<(nat, string)>)
    requires p <= |t|
    ensures r.Some? ==> FirstCinAt(t, p, r.value.0) && CinAt(t, r.value.0) == Some(r.value.1)
    ensures r.Some? ==> IsCinValue(r.value.1)
    ensures r.None? ==> forall q :: p <= q <= |t| ==> CinAt(t, q).None?
  {
    CinMatcherAt(t);
    FirstMatch(|t|, p, CinMatcher(t))
  }

  /** The CIN matcher as a total function of the start position. */
  function CinMatcher(t: string): nat -> Option<string> {
    (q: nat) => if q <= |t| then CinAt(t, q) else None
  }

  lemma CinMatcherAt(t: string)
    ensures forall q: nat :: q <= |t| ==> CinMatcher(t)(q) == CinAt(t, q)
  {
  }

  /** The CIN pattern, stated declaratively: `L` letters, `k` whitespace
      characters, `o` separator characters and `n` digits, starting at `p`. */
  ghost predicate CinPatternAt(t: string, p: int, L: int, k: int, o: int, n: int) {
    && 0 <= p && 1 <= L <= 2 && 0 <= k && 0 <= o <= 1 && 5 <= n <= 6
    && p + L + k + o + n <= |t|
    && (forall i :: p <= i < p + L ==> IsUpper(t[i]))
    && (forall i :: p + L <= i < p + L + k ==> IsSpace(t[i]))
    && (o == 1 ==> t[p + L + k] == '-' || t[p + L + k] == ' ')
    && (forall i :: p + L + k + o <= i < p + L + k + o + n ==> IsDigit(t[i]))
  }

  lemma CinAtSound(t: string, p: nat)
    requires p <= |t| && CinAt(t, p).Some?
    ensures exists L, k, o, n :: CinPatternAt(t, p, L, k, o, n)
  {
    var q := CinLettersEnd(t, p);
    var r := q + SpaceRun(t, q);
    var o := if r < |t| && t[r] == '-' then 1 else 0;
    assert CinPatternAt(t, p, q - p, r - q, o, 5);
  }

  lemma {:induction false} SpaceRunExact(t: string, q: nat, k: nat)
    requires q + k < |t| && (forall i :: q <= i < q + k ==> IsSpace(t[i])) && !IsSpace(t[q + k])
    ensures SpaceRun(t, q) == k
    decreases k
  {
    if k > 0 {
      SpaceRunExact(t, q + 1, k - 1);
    }
  }

  lemma CinLettersEndExact(t: string, p: nat, L: int, k: int, o: int, n: int)
    requires p <= |t| && CinPatternAt(t, p, L, k, o, n)
    ensures CinLettersEnd(t, p) == p + L
  {
    // the character after a single letter is whitespace, a separator or a digit
    var x := t[p + 1];
    assert L == 1 ==> IsSpace(x) || x == '-' || x == ' ' || IsDigit(x);
  }

  lemma CinDigitsStartExact(t: string, p: nat, L: int, k: int, o: int, n: int)
    requires p <= |t| && CinPatternAt(t, p, L, k, o, n)
    ensures CinDigitsStart(t, p + L) == p + L + k + o
  {
    var q := p + L;
    var y := t[q + k];
    assert y == ' ' ==> o == 1 && IsDigit(t[q + k + 1]);
    if y == ' ' {
      SpaceRunExact(t, q, k + 1);
    } else {
      assert y == '-' || IsDigit(y);
      SpaceRunExact(t, q, k);
    }
  }

  lemma CinAtComplete(t: string, p: nat, L: int, k: int, o: int, n: int)
    requires p <= |t| && CinPatternAt(t, p, L, k, o, n)
    ensures CinAt(t, p).Some?
  {
    CinLettersEndExact(t, p, L, k, o, n);
    CinDigitsStartExact(t, p, L, k, o, n);
    DigitRunAtLeast(t, p + L + k + o, n);
  }

  lemma {:induction false} DigitRunAtLeast(t: string, d: nat, n: nat)
    requires d + n <= |t| && forall i :: d <= i < d + n ==> IsDigit(t[i])
    ensures DigitRun(t, d) >= n
    decreases n
  {
    if n > 0 {
      DigitRunAtLeast(t, d + 1, n - 1);
    }
  }

  lemma CinSearchFinds(t: string, p: nat, q: nat)
    requires p <= q <= |t| && CinAt(t, q).Some?
    ensures CinSearch(t, p).Some?
  {
  }

  /**
   * The search reports a position where the pattern occurs, and no
   * occurrence starts between `p` and that position.
   */
  lemma CinSearchSound(t: string, p: nat)
    requires p <= |t| && CinSearch(t, p).Some?
    ensures exists L, k, o, n :: CinPatternAt(t, CinSearch(t, p).value.0, L, k, o, n)
    ensures forall q', L, k, o, n :: p <= q' < CinSearch(t, p).value.0 ==> !CinPatternAt(t, q', L, k, o, n)
  {
    var q := CinSearch(t, p).value.0;
    CinNoEarlier(t, p, q);
    CinAtSound(t, q);
  }

  /** Before the leftmost match no occurrence of the pattern starts. */
  lemma CinNoEarlier(t: string, p: nat, q: nat)
    requires FirstCinAt(t, p, q)
    ensures forall q', L, k, o, n :: p <= q' < q ==> !CinPatternAt(t, q', L, k, o, n)
  {
    forall q', L, k, o, n | p <= q' < q ensures !CinPatternAt(t, q', L, k, o, n) {
      if CinPatternAt(t, q', L, k, o, n) {
        CinAtComplete(t, q', L, k, o, n);
      }
    }
  }

  /** The text the CIN regex runs on: upper-cased, then digits translated. */
  function CinRaw(s: string): string { Ar2EnDigits(UpperStr(s)) }

  /** `normalize_cin` */
  function NormalizeCin(s: string): (r: Normalized)
    ensures r.kind == "cin"
    ensures r.valid ==> IsCinValue(r.value)
    ensures r.valid <==> CinSearch(CinRaw(s), 0).Some?
    ensures r.valid ==> r.value == CinSearch(CinRaw(s), 0).value.1
    ensures !r.valid ==> r.value == SquashSpaces(s)
  {
    match CinSearch(CinRaw(s), 0)
    case None => Normalized("cin", SquashSpaces(s), false)
    case Some((_, v)) => Normalized("cin", v, true)
  }

  /**
   * A valid CIN is what the matcher reads at the leftmost occurrence of the
   * pattern in the upper-cased, digit-translated text.
   */
  lemma NormalizeCinFirst(s: string)
    requires NormalizeCin(s).valid
    ensures exists q: nat ::
      && q <= |CinRaw(s)| && CinAt(CinRaw(s), q) == Some(NormalizeCin(s).value)
      && (exists L, k, o, n :: CinPatternAt(CinRaw(s), q, L, k, o, n))
      && forall q', L, k, o, n :: 0 <= q' < q ==> !CinPatternAt(CinRaw(s), q', L, k, o, n)
  {
    var t := CinRaw(s);
    CinSearchSound(t, 0);
  }



  /** `normalize_cin` is valid exactly when the translated text holds 1-2
      letters A-Z, optional whitespace, an optional '-' or ' ', then 5-6 digits. */
  lemma NormalizeCinValidIff(s: string)
    ensures NormalizeCin(s).valid <==>
      exists p, L, k, o, n :: CinPatternAt(CinRaw(s), p, L, k, o, n)
  {
    var t := CinRaw(s);
    if NormalizeCin(s).valid {
      CinSearchSound(t, 0);
    }
    if exists p, L, k, o, n :: CinPatternAt(t, p, L, k, o, n) {
      var p, L, k, o, n :| CinPatternAt(t, p, L, k, o, n);
      CinAtComplete(t, p, L, k, o, n);
      CinSearchFinds(t, 0, p);
    }
  }

  // -------------------------------------------------------------------- date

  /** Both separators '.' and '-' become '/'. */
  function DateSeparators(s: string): (r: string)
    ensures |r| == |s|
  {
    seq(|s|, i requires 0 <= i < |s| => if s[i] == '.' || s[i] == '-' then '/' else s[i])
  }

  datatype DateParts = DateParts(day: nat, month: nat, year: nat)

  /**
   * `(\d{1,2})/(\d{1,2})/(\d{2,4})` matched at `p`. A one- or two-digit group
   * must be followed by '/', so it is the whole digit run; the year takes at
   * most four digits.
   */
  function DateAt(t: string, p: nat): Option<DateParts>
    requires p <= |t|
  {
    var n1 := DigitRun(t, p);
    if 1 <= n1 <= 2 && p + n1 < |t| && t[p + n1] == '/' then
      var p2 := p + n1 + 1;
      var n2 := DigitRun(t, p2);
      if 1 <= n2 <= 2 && p2 + n2 < |t| && t[p2 + n2] == '/' then
        var p3 := p2 + n2 + 1;
        var n3 := DigitRun(t, p3);
        if n3 >= 2 then
          Some(DateParts(DigitsValue(t[p..p + n1]), DigitsValue(t[p2..p2 + n2]),
                         DigitsValue(t[p3..p3 + Min(n3, 4)])))
        else None
      else None
    else None
  }

  /** `q` is the leftmost position from `p` on where the date pattern matches. */
  ghost predicate FirstDateAt(t: string, p: nat, q: nat) {
    p <= q <= |t| && DateAt(t, q).Some? && forall q' :: p <= q' < q ==> DateAt(t, q').None?
  }

  /** `re.search` for the date pattern from `p` on: the start of the leftmost match and its parts. */
  function DateSearch(t: string, p: nat): (r: Option<(nat, DateParts)>)
    requires p <= |t|
    ensures r.Some? ==> FirstDateAt(t, p, r.value.0) && DateAt(t, r.value.0) == Some(r.value.1)
    ensures r.None? ==> forall q :: p <= q <= |t| ==> DateAt(t, q).None?
  {
    DateMatcherAt(t);
    FirstMatch(|t|, p, DateMatcher(t))
  }

  /** The date matcher as a total function of the start position. */
  function DateMatcher(t: string): nat -> Option<DateParts> {
    (q: nat) => if q <= |t| then DateAt(t, q) else None
  }

  lemma DateMatcherAt(t: string)
    ensures forall q: nat :: q <= |t| ==> DateMatcher(t)(q) == DateAt(t, q)
  {
  }

  /** The date pattern, declaratively: `a`, `b`, `c` digits separated by '/'. */
  ghost predicate DatePatternAt(t: string, p: int, a: int, b: int, c: int) {
    && 0 <= p && 1 <= a <= 2 && 1 <= b <= 2 && 2 <= c <= 4
    && p + a + b + c + 2 <= |t|
    && (forall i :: p <= i < p + a ==> IsDigit(t[i]))
    && t[p + a] == '/'
    && (forall i :: p + a + 1 <= i < p + a + 1 + b ==> IsDigit(t[i]))
    && t[p + a + 1 + b] == '/'
    && (forall i :: p + a + b + 2 <= i < p + a + b + 2 + c ==> IsDigit(t[i]))
  }

  lemma {:induction false} DigitRunExact(t: string, d: nat, n: nat)
    requires d + n < |t| && (forall i :: d <= i < d + n ==> IsDigit(t[i])) && !IsDigit(t[d + n])
    ensures DigitRun(t, d) == n
    decreases n
  {
    if n > 0 {
      DigitRunExact(t, d + 1, n - 1);
    }
  }

  /** The values of the three digit groups of an occurrence of the date pattern. */
  function DateGroups(t: string, p: nat, a: nat, b: nat, c: nat): DateParts
    requires DatePatternAt(t, p, a, b, c)
  {
    assert AllDigits(t[p..p + a]) && AllDigits(t[p + a + 1..p + a + 1 + b]);
    assert AllDigits(t[p + a + b + 2..p + a + b + 2 + c]);
    DateParts(DigitsValue(t[p..p + a]), DigitsValue(t[p + a + 1..p + a + 1 + b]),
              DigitsValue(t[p + a + b + 2..p + a + b + 2 + c]))
  }

  lemma DateAtSound(t: string, p: nat)
    requires p <= |t| && DateAt(t, p).Some?
    ensures exists a, b, c :: DatePatternAt(t, p, a, b, c) && DateAt(t, p).value == DateGroups(t, p, a, b, c)
  {
    var n1 := DigitRun(t, p);
    var n2 := DigitRun(t, p + n1 + 1);
    var n3 := Min(DigitRun(t, p + n1 + n2 + 2), 4);
    assert DatePatternAt(t, p, n1, n2, n3);
    assert DateAt(t, p).value == DateGroups(t, p, n1, n2, n3);
  }

  lemma {:induction false} DateAtComplete(t: string, p: nat, a: int, b: int, c: int)
    requires p <= |t| && DatePatternAt(t, p, a, b, c)
    ensures DateAt(t, p).Some?
  {
    assert !IsDigit(t[p + a]) && !IsDigit(t[p + a + 1 + b]);
    DigitRunExact(t, p, a);
    DigitRunExact(t, p + a + 1, b);
    DigitRunAtLeast(t, p + a + b + 2, c);
    DateAtRuns(t, p, a, b);
  }

  /** Runs of 1-2 and 1-2 digits, each followed by '/', then at least two digits: a date. */
  lemma {:induction false} DateAtRuns(t: string, p: nat, a: nat, b: nat)
    requires 1 <= a <= 2 && 1 <= b <= 2 && p + a + 1 + b < |t|
    requires DigitRun(t, p) == a && t[p + a] == '/'
    requires DigitRun(t, p + a + 1) == b && t[p + a + 1 + b] == '/'
    requires DigitRun(t, p + a + b + 2) >= 2
    ensures DateAt(t, p).Some?
  {
    assert p + a + 1 + b + 1 == p + a + b + 2;
  }

  lemma DateSearchFinds(t: string, p: nat, q: nat)
    requires p <= q <= |t| && DateAt(t, q).Some?
    ensures DateSearch(t, p).Some?
  {
  }

  /**
   * What the date search returns is the values of the three digit groups of
   * an occurrence of the pattern at the position it reports, and no
   * occurrence starts earlier.
   */
  lemma DateSearchSound(t: string, p: nat)
    requires p <= |t| && DateSearch(t, p).Some?
    ensures var (q, parts) := DateSearch(t, p).value;
      && (exists a, b, c :: DatePatternAt(t, q, a, b, c) && parts == DateGroups(t, q, a, b, c))
      && forall q', a, b, c :: p <= q' < q ==> !DatePatternAt(t, q', a, b, c)
  {
    var q := DateSearch(t, p).value.0;
    DateAtSound(t, q);
    DateNoEarlier(t, p, q);
  }

  /** Before the leftmost match no occurrence of the date pattern starts. */
  lemma DateNoEarlier(t: string, p: nat, q: nat)
    requires FirstDateAt(t, p, q)
    ensures forall q', a, b, c :: p <= q' < q ==> !DatePatternAt(t, q', a, b, c)
  {
    forall q', a, b, c | p <= q' < q ensures !DatePatternAt(t, q', a, b, c) {
      if DatePatternAt(t, q', a, b, c) {
        DateAtComplete(t, q', a, b, c);
      }
    }
  }

  /** Two-digit years: below 50 are 20xx, 50-99 are 19xx; larger years are kept. */
  function ExpandYear(y: nat): (r: nat)
    ensures y < 50 ==> r == 2000 + y
    ensures 50 <= y < 100 ==> r == 1900 + y
    ensures y >= 100 ==> r == y
  {
    if y < 100 && y < 50 then y + 2000 else if y < 100 then y + 1900 else y
  }

  /** `f"{y:04d}-{mo:02d}-{d:02d}"` */
  function FormatDate(d: nat, mo: nat, y: nat): string
  {
    ZeroPad(y, 4) + "-" + ZeroPad(mo, 2) + "-" + ZeroPad(d, 2)
  }

  /** The text the date regex runs on. */
  function DateText(s: string): string { DateSeparators(Ar2EnDigits(s)) }

  /** A canonical date string YYYY-MM-DD whose parts are in range. */
  ghost predicate IsCanonicalDate(v: string) {
    && |v| == 10 && v[4] == '-' && v[7] == '-'
    && AllDigits(v[..4]) && AllDigits(v[5..7]) && AllDigits(v[8..])
    && 1900 <= DigitsValue(v[..4]) <= 2100
    && 1 <= DigitsValue(v[5..7]) <= 12
    && 1 <= DigitsValue(v[8..]) <= 31
  }

  /** `normalize_date_ma` */
  function NormalizeDate(s: string): (r: Normalized)
    ensures r.kind == "date"
    ensures r.valid ==> IsCanonicalDate(r.value)
  {
    match DateSearch(DateText(s), 0)
    case None => Normalized("date", SquashSpaces(s), false)
    case Some((_, parts)) =>
      var y := ExpandYear(parts.year);
      var ok := 1 <= parts.day <= 31 && 1 <= parts.month <= 12 && 1900 <= y <= 2100;
      if ok then
        FormatDateCanonical(parts.day, parts.month, y);
        Normalized("date", FormatDate(parts.day, parts.month, y), true)
      else Normalized("date", SquashSpaces(s), false)
  }

  lemma FormatDateCanonical(d: nat, mo: nat, y: nat)
    requires 1 <= d <= 31 && 1 <= mo <= 12 && 1900 <= y <= 2100
    ensures IsCanonicalDate(FormatDate(d, mo, y))
    ensures var v := FormatDate(d, mo, y);
      DigitsValue(v[..4]) == y && DigitsValue(v[5..7]) == mo && DigitsValue(v[8..]) == d
  {
    assert Pow10(2) == 100 && Pow10(4) == 10000;
    ZeroPadExact(y, 4);
    ZeroPadExact(mo, 2);
    ZeroPadExact(d, 2);
    CanonicalParts(ZeroPad(y, 4), ZeroPad(mo, 2), ZeroPad(d, 2));
  }

  /** Four, two and two digits joined by '-' are read back part by part. */
  lemma CanonicalParts(a: string, b: string, c: string)
    requires |a| == 4 && |b| == 2 && |c| == 2 && AllDigits(a) && AllDigits(b) && AllDigits(c)
    ensures var v := a + "-" + b + "-" + c;
      && |v| == 10 && v[4] == '-' && v[7] == '-'
      && v[..4] == a && v[5..7] == b && v[8..] == c
  {
  }

  /** A number below 10^width is written in exactly `width` digits that read back as it. */
  lemma ZeroPadExact(n: nat, width: nat)
    requires 1 <= width && n < Pow10(width)
    ensures |ZeroPad(n, width)| == width
    ensures AllDigits(ZeroPad(n, width)) && DigitsValue(ZeroPad(n, width)) == n
  {
    NatToDecimalLength(n, width, Pow10(width));
    ZeroPadValue(n, width);
  }

  /** `normalize_date_ma` is valid exactly when the leftmost d/m/y match is in
      range, and then its value reads back as that day, month and expanded year. */
  lemma NormalizeDateSpec(s: string)
    ensures var r := NormalizeDate(s);
      match DateSearch(DateText(s), 0)
      case None => !r.valid && r.value == SquashSpaces(s)
      case Some((_, parts)) =>
        var y := ExpandYear(parts.year);
        && (r.valid <==> 1 <= parts.day <= 31 && 1 <= parts.month <= 12 && 1900 <= y <= 2100)
        && (r.valid ==> DigitsValue(r.value[..4]) == y && DigitsValue(r.value[5..7]) == parts.month
                        && DigitsValue(r.value[8..]) == parts.day)
  {
    match DateSearch(DateText(s), 0)
    case None =>
    case Some((_, parts)) =>
      var y := ExpandYear(parts.year);
      if 1 <= parts.day <= 31 && 1 <= parts.month <= 12 && 1900 <= y <= 2100 {
        FormatDateCanonical(parts.day, parts.month, y);
      }
  }

  /** A date is found exactly when the text holds the d/m/y pattern somewhere. */
  lemma DateFoundIff(s: string)
    ensures DateSearch(DateText(s), 0).Some? <==>
      exists p, a, b, c :: DatePatternAt(DateText(s), p, a, b, c)
  {
    var t := DateText(s);
    if DateSearch(t, 0).Some? {
      DateSearchSound(t, 0);
    }
    if exists p, a, b, c :: DatePatternAt(t, p, a, b, c) {
      var p, a, b, c :| DatePatternAt(t, p, a, b, c);
      DateAtComplete(t, p, a, b, c);
      DateSearchFinds(t, 0, p);
    }
  }

  // ------------------------------------------------------------------- phone

  /** `re.sub(r"\D+", "", s)`: only the digits, in order. */
  function KeepDigits(s: string): (r: string)
    ensures AllDigits(r) && |r| <= |s|
    ensures r == Sorting.Filter(s, IsDigit)
  {
    if s == [] then [] else (if IsDigit(s[0]) then [s[0]] else []) + KeepDigits(s[1..])
  }

  /** Every digit of the text is kept, in the order of the text. */
  lemma KeepDigitsInOrder(s: string)
    ensures Sorting.IsSubsequence(KeepDigits(s), s)
    ensures forall c :: c in s && IsDigit(c) ==> c in KeepDigits(s)
  {
    Sorting.FilterSubsequence(s, IsDigit);
    forall c | c in s && IsDigit(c) ensures c in KeepDigits(s) {
      Sorting.FilterKeeps(s, IsDigit, c);
    }
  }

  /** The national number: digits, without a leading "212", then without a leading "0". */
  function PhoneDigits(s: string): (t: string)
    ensures AllDigits(t)
  {
    var t0 := KeepDigits(Ar2EnDigits(s));
    var t1 := if StartsWith(t0, "212") then t0[3..] else t0;
    if StartsWith(t1, "0") then t1[1..] else t1
  }

  /** `normalize_phone_ma` */
  function NormalizePhone(s: string): (r: Normalized)
    ensures r.kind == "phone"
    ensures r.valid <==> |PhoneDigits(s)| == 9
    ensures r.valid ==> r.value == "+212" + PhoneDigits(s)
    ensures !r.valid ==> r.value == SquashSpaces(s)
  {
    var t := PhoneDigits(s);
    if |t| == 9 then Normalized("phone", "+212" + t, true)
    else Normalized("phone", SquashSpaces(s), false)
  }

  lemma {:induction false} KeepDigitsAll(s: string)
    requires AllDigits(s)
    ensures KeepDigits(s) == s
  {
    if s != [] {
      KeepDigitsAll(s[1..]);
    }
  }

  /** A canonical phone number normalizes to itself unless its national
      number starts with 0 (that leading 0 would be taken for a trunk prefix). */
  lemma NormalizePhoneCanonical(n: string)
    requires |n| == 9 && (forall i :: 0 <= i < 9 ==> IsAsciiDigit(n[i])) && n[0] != '0'
    ensures NormalizePhone("+212" + n) == Normalized("phone", "+212" + n, true)
  {
    PhoneDigitsCanonical(n);
  }

  lemma {:induction false} PhoneDigitsCanonical(n: string)
    requires |n| == 9 && (forall i :: 0 <= i < 9 ==> IsAsciiDigit(n[i])) && n[0] != '0'
    ensures PhoneDigits("+212" + n) == n
  {
    var s := "+212" + n;
    var d := "212" + n;
    CanonicalDigitsKept(n);
    assert KeepDigits(Ar2EnDigits(s)) == d;
    assert StartsWith(d, "212") && d[3..] == n;
    assert !StartsWith(n, "0");
  }

  lemma {:induction false} CanonicalDigitsKept(n: string)
    requires |n| == 9 && (forall i :: 0 <= i < 9 ==> IsAsciiDigit(n[i]))
    ensures KeepDigits(Ar2EnDigits("+212" + n)) == "212" + n
  {
    var s := "+212" + n;
    var d := "212" + n;
    assert forall i :: 0 <= i < |s| ==> !IsArabicIndicDigit(s[i]);
    assert Ar2EnDigits(s) == s;
    assert AllDigits(d);
    assert s[1..] == d;
    assert KeepDigits(s) == KeepDigits(d);
    KeepDigitsAll(d);
  }

  // ------------------------------------------------------------ receipt_no

  predicate IsReceiptSep(c: char) { c == '/' || c == '-' }

  /** Greedily take up to `left` more groups `[/-]\d{2,4}` from `q`; the end of the match. */
  function ReceiptGroupsEnd(t: string, q: nat, left: nat): (e: nat)
    requires q <= |t|
    ensures q <= e <= |t|
    decreases left
  {
    if left > 0 && q < |t| && IsReceiptSep(t[q]) && DigitRun(t, q + 1) >= 2 then
      ReceiptGroupsEnd(t, q + 1 + Min(DigitRun(t, q + 1), 4), left - 1)
    else q
  }

  /**
   * `\d{1,6}(?:[/-]\d{2,4}){1,3}` matched at `p`, giving the end of the match.
   * The leading digits must be followed by a separator, so they are the whole
   * digit run; each group then takes as many digits as it can, and the first
   * group that cannot be taken ends the match.
   */
  function ReceiptAt(t: string, p: nat): Option<nat>
    requires p <= |t|
    ensures ReceiptAt(t, p).Some? ==> p < ReceiptAt(t, p).value <= |t|
  {
    var n := DigitRun(t, p);
    if 1 <= n <= 6 && p + n < |t| && IsReceiptSep(t[p + n]) && DigitRun(t, p + n + 1) >= 2 then
      Some(ReceiptGroupsEnd(t, p + n, 3))
    else None
  }

  /** `re.search` for the receipt pattern from `p` on: the start and the end of the leftmost match. */
  function ReceiptSearch(t: string, p: nat): Option<(nat, nat)>
    requires p <= |t|
    ensures ReceiptSearch(t, p).Some? ==>
      var (a, b) := ReceiptSearch(t, p).value;
      && p <= a < b <= |t| && ReceiptAt(t, a) == Some(b)
      && forall q :: p <= q < a ==> ReceiptAt(t, q).None?
    ensures ReceiptSearch(t, p).None? ==> forall q :: p <= q <= |t| ==> ReceiptAt(t, q).None?
  {
    ReceiptMatcherAt(t);
    FirstMatch(|t|, p, ReceiptMatcher(t))
  }

  /** The receipt matcher as a total function of the start position. */
  function ReceiptMatcher(t: string): nat -> Option<nat> {
    (q: nat) => if q <= |t| then ReceiptAt(t, q) else None
  }

  lemma ReceiptMatcherAt(t: string)
    ensures forall q: nat :: q <= |t| ==> ReceiptMatcher(t)(q) == ReceiptAt(t, q)
  {
  }

  /** The receipt pattern, declaratively: `n` digits, a separator, `m` digits. */
  ghost predicate ReceiptPatternAt(t: string, p: int, n: int, m: int) {
    && 0 <= p && 1 <= n <= 6 && 2 <= m <= 4 && p + n + 1 + m <= |t|
    && (forall i :: p <= i < p + n ==> IsDigit(t[i]))
    && IsReceiptSep(t[p + n])
    && (forall i :: p + n + 1 <= i < p + n + 1 + m ==> IsDigit(t[i]))
  }

  lemma ReceiptAtIff(t: string, p: nat)
    requires p <= |t|
    ensures ReceiptAt(t, p).Some? <==> exists n, m :: ReceiptPatternAt(t, p, n, m)
  {
    if ReceiptAt(t, p).Some? {
      assert ReceiptPatternAt(t, p, DigitRun(t, p), 2);
    }
    if exists n, m :: ReceiptPatternAt(t, p, n, m) {
      var n, m :| ReceiptPatternAt(t, p, n, m);
      DigitRunExact(t, p, n);
      DigitRunAtLeast(t, p + n + 1, m);
    }
  }

  lemma ReceiptSearchFinds(t: string, p: nat, q: nat)
    requires p <= q <= |t| && ReceiptAt(t, q).Some?
    ensures ReceiptSearch(t, p).Some?
  {
  }

  /** `s.replace("-", "/")` */
  function DashToSlash(s: string): (r: string)
    ensures |r| == |s| && forall i :: 0 <= i < |r| ==> r[i] != '-'
  {
    seq(|s|, i requires 0 <= i < |s| => if s[i] == '-' then '/' else s[i])
  }

  /** Digits and '/' only, starting with a digit. */
  predicate IsReceiptValue(v: string) {
    v != [] && IsDigit(v[0]) && forall i :: 0 <= i < |v| ==> IsDigit(v[i]) || v[i] == '/'
  }

  /** `normalize_receipt_no` */
  function NormalizeReceiptNo(s: string): (r: Normalized)
    ensures r.kind == "receipt_no"
    ensures r.valid ==> IsReceiptValue(r.value)
    ensures r.valid <==> ReceiptSearch(Ar2EnDigits(s), 0).Some?
    ensures r.valid ==> var (a, b) := ReceiptSearch(Ar2EnDigits(s), 0).value;
      r.value == DashToSlash(Ar2EnDigits(s)[a..b])
    ensures !r.valid ==> r.value == SquashSpaces(s)
  {
    var t := Ar2EnDigits(s);
    match ReceiptSearch(t, 0)
    case None => Normalized("receipt_no", SquashSpaces(s), false)
    case Some((a, b)) =>
      ReceiptValueOf(t, a, b);
      Normalized("receipt_no", DashToSlash(t[a..b]), true)
  }

  /** A receipt match, with its dashes made slashes, is a receipt value. */
  lemma ReceiptValueOf(t: string, a: nat, b: nat)
    requires a <= |t| && ReceiptAt(t, a) == Some(b)
    ensures a < b <= |t| && IsReceiptValue(DashToSlash(t[a..b]))
  {
    ReceiptMatchChars(t, a, b);
    var u := t[a..b];
    forall i | 0 <= i < |u| ensures IsDigit(u[i]) || IsReceiptSep(u[i]) {
      assert u[i] == t[a + i];
    }
  }

  lemma {:induction false} GroupsChars(t: string, q: nat, left: nat)
    requires q <= |t|
    ensures forall i :: q <= i < ReceiptGroupsEnd(t, q, left) ==> IsDigit(t[i]) || IsReceiptSep(t[i])
    decreases left
  {
    if left > 0 && q < |t| && IsReceiptSep(t[q]) && DigitRun(t, q + 1) >= 2 {
      GroupsChars(t, q + 1 + Min(DigitRun(t, q + 1), 4), left - 1);
    }
  }

  lemma ReceiptMatchChars(t: string, a: nat, b: nat)
    requires a <= |t| && ReceiptAt(t, a) == Some(b)
    ensures a < b <= |t| && IsDigit(t[a])
    ensures forall i :: a <= i < b ==> IsDigit(t[i]) || IsReceiptSep(t[i])
  {
    GroupsChars(t, a + DigitRun(t, a), 3);
  }

  /** `normalize_receipt_no` is valid exactly when the translated text holds
      1-6 digits, a '/' or '-', and at least 2 more digits. */
  lemma NormalizeReceiptValidIff(s: string)
    ensures NormalizeReceiptNo(s).valid <==>
      exists p, n, m :: ReceiptPatternAt(Ar2EnDigits(s), p, n, m)
  {
    var t := Ar2EnDigits(s);
    if NormalizeReceiptNo(s).valid {
      var (a, b) := ReceiptSearch(t, 0).value;
      ReceiptAtIff(t, a);
    }
    if exists p, n, m :: ReceiptPatternAt(t, p, n, m) {
      var p, n, m :| ReceiptPatternAt(t, p, n, m);
      ReceiptAtIff(t, p);
      ReceiptSearchFinds(t, 0, p);
    }
  }

  // ---------------------------------------------------------------- ICE, IF

  /** `normalize_ice`: the bare digits, valid at exactly 15 of them. */
  function NormalizeIce(s: string): (r: Normalized)
    ensures r.kind == "ice" && r.value == KeepDigits(Ar2EnDigits(s))
    ensures r.valid <==> |r.value| == 15
  {
    var t := KeepDigits(Ar2EnDigits(s));
    Normalized("ice", t, |t| == 15)
  }

  /** `normalize_if`: the bare digits, valid at 7 or 8 of them. */
  function NormalizeIf(s: string): (r: Normalized)
    ensures r.kind == "if" && r.value == KeepDigits(Ar2EnDigits(s))
    ensures r.valid <==> 7 <= |r.value| <= 8
  {
    var t := KeepDigits(Ar2EnDigits(s));
    Normalized("if", t, 7 <= |t| <= 8)
  }

  // ---------------------------------------------------------------- commune

  /** The names of COMMUNES_CASA. */
  const Communes: seq<string> := [
    "Anfa", "Sidi Belyout", "Ma\U{00E2}rif", "Roches Noires", "A\U{00EF}n Seba\U{00E2}",
    "A\U{00EF}n Chock", "Hay Hassani", "Sidi Othmane", "Sidi Bernoussi", "Ben M'Sick",
    "Moulay Rachid", "Bouskoura", "Dar Bouazza", "M\U{00E9}diouna"]

  /** `base.lower() in c.lower() or c.lower() in base.lower()` */
  predicate CommuneMatches(base: string, c: string) {
    IsInfix(LowerStr(base), LowerStr(c)) || IsInfix(LowerStr(c), LowerStr(base))
  }

  /** The first name of `order` that matches `base`. */
  function FirstCommune(base: string, order: seq<string>): (r: Option<string>)
    ensures r.Some? ==> r.value in order && CommuneMatches(base, r.value)
    ensures r.None? ==> forall j :: 0 <= j < |order| ==> !CommuneMatches(base, order[j])
  {
    if order == [] then None
    else if CommuneMatches(base, order[0]) then Some(order[0])
    else FirstCommune(base, order[1..])
  }

  /**
   * `normalize_commune`. COMMUNES_CASA is a Python set, so the order in which
   * its names are tried is the hash order of the run; it is the parameter
   * `order`, and the result is stated for every order.
   */
  function NormalizeCommune(s: string, order: seq<string>): (r: Normalized)
    ensures r.kind == "commune" && r.valid
    ensures var base := Title(SquashSpaces(s));
      || (r.value in order && CommuneMatches(base, r.value))
      || (r.value == base && forall j :: 0 <= j < |order| ==> !CommuneMatches(base, order[j]))
  {
    var base := Title(SquashSpaces(s));
    match FirstCommune(base, order)
    case Some(c) => Normalized("commune", c, true)
    case None => Normalized("commune", base, true)
  }

  /** For any iteration order of the gazetteer, the value is a gazetteer name
      or the title-cased input; an empty input matches every name. */
  lemma NormalizeCommuneGazetteer(s: string, order: seq<string>)
    requires multiset(order) == multiset(Communes)
    ensures var r := NormalizeCommune(s, order);
      r.value in Communes || r.value == Title(SquashSpaces(s))
    ensures SquashSpaces(s) == "" ==> NormalizeCommune(s, order).value == order[0]
  {
    var r := NormalizeCommune(s, order);
    if r.value in order {
      assert r.value in multiset(Communes);
    }
    if SquashSpaces(s) == "" {
      assert |order| == |Communes| by {
        assert |multiset(order)| == |order|;
      }
      assert InfixAt(LowerStr(""), LowerStr(order[0]), 0);
    }
  }

  // ------------------------------------------------------------- name, text

  /** `normalize_name` */
  function NormalizeName(s: string): (r: Normalized)
    ensures r.kind == "name" && r.value == SquashSpaces(s) && (r.valid <==> r.value != "")
  {
    Normalized("name", SquashSpaces(s), SquashSpaces(s) != "")
  }

  /** The fallback of `normalize_field`. */
  function NormalizeText(s: string): (r: Normalized)
    ensures r.kind == "text" && r.value == SquashSpaces(Ar2EnDigits(s))
    ensures r.valid <==> SquashSpaces(s) != ""
  {
    Normalized("text", SquashSpaces(Ar2EnDigits(s)), SquashSpaces(s) != "")
  }

  // --------------------------------------------------------- normalize_field

  /** Which normalizer a field key selects. */
  datatype FieldKind = Cin | Date | Phone | Receipt | Ice | If | Commune | Name | Text

  const CinWords: seq<string> := ["cin", "cnie"]
  const DateWords: seq<string> := ["date", "deliv", "d\U{00E9}livr", "naissance", "dob",
                                   "\U{062A}\U{0627}\U{0631}\U{064A}\U{062E}"]
  const PhoneWords: seq<string> := ["tel", "t\U{00E9}l", "phone", "gsm", "\U{0647}\U{0627}\U{062A}\U{0641}"]
  const ReceiptWords: seq<string> := ["recep", "r\U{00E9}c\U{00E9}p", "receipt", "\U{0648}\U{0635}\U{0644}",
                                      "\U{0631}\U{0642}\U{0645} \U{0627}\U{0644}\U{0648}\U{0635}\U{0644}"]
  const CommuneWords: seq<string> := ["commune", "arrondissement", "prefecture", "wilaya", "province"]
  const NameWords: seq<string> := ["pr\U{00E9}sident", "president", "secr", "tr\U{00E9}sor", "association",
                                   "intitul", "name", "nom",
                                   "\U{0627}\U{0633}\U{0645} \U{0627}\U{0644}\U{062C}\U{0645}\U{0639}\U{064A}\U{0629}"]

  /** The word characters of `\b`: letters, digits and '_', narrowed to ASCII, Latin-1 and the Arabic letters. */
  predicate IsWordChar(c: char) {
    IsAsciiLetter(c) || IsDigit(c) || c == '_' ||
    ('\U{00C0}' <= c <= '\U{00FF}' && c != '\U{00D7}' && c != '\U{00F7}') ||
    ('\U{0621}' <= c <= '\U{064A}')
  }

  /** `re.search(r"\bif\b", k)` at index `i`. */
  predicate WordIfAt(k: string, i: int) {
    && 0 <= i && i + 2 <= |k| && k[i] == 'i' && k[i + 1] == 'f'
    && (i == 0 || !IsWordChar(k[i - 1]))
    && (i + 2 == |k| || !IsWordChar(k[i + 2]))
  }

  predicate HasWordIf(k: string) { exists i | 0 <= i <= |k| :: WordIfAt(k, i) }

  /** The dispatch of `normalize_field` on the lower-cased key, in its fixed order. */
  function KindOf(k: string): FieldKind
  {
    if ContainsAny(k, CinWords) then Cin
    else if ContainsAny(k, DateWords) then Date
    else if ContainsAny(k, PhoneWords) then Phone
    else if ContainsAny(k, ReceiptWords) then Receipt
    else if IsInfix("ice", k) then Ice
    else if HasWordIf(k) then If
    else if ContainsAny(k, CommuneWords) then Commune
    else if ContainsAny(k, NameWords) then Name
    else Text
  }

  function NormalizeAs(kind: FieldKind, t: string, order: seq<string>): Normalized
  {
    match kind
    case Cin => NormalizeCin(t)
    case Date => NormalizeDate(t)
    case Phone => NormalizePhone(t)
    case Receipt => NormalizeReceiptNo(t)
    case Ice => NormalizeIce(t)
    case If => NormalizeIf(t)
    case Commune => NormalizeCommune(t, order)
    case Name => NormalizeName(t)
    case Text => NormalizeText(t)
  }

  /** `normalize_field(key, text)`; `None` stands for Python's None and is read as "". */
  function NormalizeField(key: Option<string>, text: Option<string>, order: seq<string>): Normalized
  {
    var k := LowerStr(if key.Some? then key.value else "");
    var t := if text.Some? then text.value else "";
    NormalizeAs(KindOf(k), t, order)
  }

  /** An empty (or None) text is invalid for every kind of field except a commune. */
  lemma NormalizeFieldEmpty(key: Option<string>, text: Option<string>, order: seq<string>)
    requires text.None? || text == Some("")
    ensures var kind := KindOf(LowerStr(if key.Some? then key.value else ""));
      NormalizeField(key, text, order).valid <==> kind == Commune
  {
    var t := "";
    assert Collapse(t) == [];
    assert SquashSpaces(t) == [];
    assert CinSearch(CinRaw(t), 0).None?;
    assert DateSearch(DateText(t), 0).None?;
    assert ReceiptSearch(Ar2EnDigits(t), 0).None?;
    assert KeepDigits(Ar2EnDigits(t)) == [];
  }

  lemma {:induction false} KeepDigitsArabicIndic(s: string)
    ensures KeepDigits(Ar2EnDigits(ToArabicIndic(s))) == KeepDigits(Ar2EnDigits(s))
  {
    Ar2EnOfArabicIndic(s);
  }

  lemma UpperArabicIndic(s: string)
    ensures UpperStr(ToArabicIndic(s)) == ToArabicIndic(UpperStr(s))
  {
  }

  lemma AllSpaceArabicIndic(s: string)
    ensures AllSpace(ToArabicIndic(s)) <==> AllSpace(s)
  {
    var a := ToArabicIndic(s);
    assert forall i :: 0 <= i < |s| ==> (IsSpace(a[i]) <==> IsSpace(s[i]));
  }

  /**
   * Writing the digits of a text as Arabic-Indic instead of ASCII changes
   * neither the validity nor, when valid, the value, for every kind of field
   * except commune and name (whose values keep the digits as written).
   */
  lemma NormalizeAsDigitSystem(kind: FieldKind, s: string, order: seq<string>)
    requires kind != Commune && kind != Name
    ensures var r1 := NormalizeAs(kind, s, order);
      var r2 := NormalizeAs(kind, ToArabicIndic(s), order);
      r1.valid == r2.valid && (r1.valid ==> r1.value == r2.value)
  {
    var a := ToArabicIndic(s);
    Ar2EnOfArabicIndic(s);
    match kind
    case Cin =>
      UpperArabicIndic(s);
      Ar2EnOfArabicIndic(UpperStr(s));
      assert CinRaw(a) == CinRaw(s);
    case Date =>
      assert DateText(a) == DateText(s);
    case Phone =>
      assert PhoneDigits(a) == PhoneDigits(s);
    case Receipt =>
    case Ice =>
    case If =>
    case Text =>
      SquashSpacesEmptyIff(s);
      SquashSpacesEmptyIff(a);
      AllSpaceArabicIndic(s);
  }

  /** The dates of a typical receipt: "12/08/2025" is 12 August 2025. */
  lemma DateExample()
    ensures NormalizeDate("12/08/2025") == Normalized("date", "2025-08-12", true)
  {
    DateExampleParse();
    DateExampleFormat();
  }

  lemma DateExampleParse()
    ensures DateSearch(DateText("12/08/2025"), 0) == Some((0, DateParts(12, 8, 2025)))
  {
    var t := DateText("12/08/2025");
    assert t == "12/08/2025";
    DateAtExample(t);
  }

  lemma DateAtExample(t: string)
    requires t == "12/08/2025"
    ensures DateAt(t, 0) == Some(DateParts(12, 8, 2025))
  {
    DateExampleRuns(t);
    DateExampleValues();
    assert t[0..2] == "12" && t[3..5] == "08" && t[6..10] == "2025";
  }

  lemma DateExampleRuns(t: string)
    requires t == "12/08/2025"
    ensures DigitRun(t, 0) == 2 && DigitRun(t, 3) == 2 && DigitRun(t, 6) == 4
  {
    assert DigitRun(t, 2) == 0 && DigitRun(t, 1) == 1;
    assert DigitRun(t, 5) == 0 && DigitRun(t, 4) == 1;
    assert DigitRun(t, 10) == 0 && DigitRun(t, 9) == 1 && DigitRun(t, 8) == 2 && DigitRun(t, 7) == 3;
  }

  lemma DateExampleValues()
    ensures DigitsValue("12") == 12 && DigitsValue("08") == 8 && DigitsValue("2025") == 2025
  {
    assert DigitsValue("12") == 12 by { assert "12"[..1] == "1"; }
    assert DigitsValue("08") == 8 by { assert "08"[..1] == "0"; }
    assert DigitsValue("2025") == 2025 by {
      assert "2025"[..3] == "202" && "202"[..2] == "20" && "20"[..1] == "2";
    }
  }

  lemma DateExampleFormat()
    ensures FormatDate(12, 8, 2025) == "2025-08-12"
  {
    assert NatToDecimal(2025) == "2025" by {
      assert NatToDecimal(2) == "2";
      assert NatToDecimal(20) == "20";
      assert NatToDecimal(202) == "202";
    }
    assert ZeroPad(2025, 4) == "2025";
    assert NatToDecimal(8) == "8";
    assert ZeroPad(8, 2) == "08";
    assert NatToDecimal(12) == "12";
    assert ZeroPad(12, 2) == "12";
  }

  /** A receipt number "2024/1234" is kept as it is. */
  lemma ReceiptExample()
    ensures NormalizeReceiptNo("2024/1234") == Normalized("receipt_no", "2024/1234", true)
  {
    var t := "2024/1234";
    assert Ar2EnDigits(t) == t;
    ReceiptExampleMatch(t);
    ReceiptExampleSlashes(t);
    NormalizeReceiptWhole(t);
  }

  /** A text that is one whole receipt match, in Western digits and with '/' only, is kept. */
  lemma NormalizeReceiptWhole(t: string)
    requires Ar2EnDigits(t) == t && ReceiptAt(t, 0) == Some(|t|) && DashToSlash(t) == t
    ensures NormalizeReceiptNo(t) == Normalized("receipt_no", t, true)
  {
    assert ReceiptSearch(t, 0) == Some((0, |t|));
    assert t[0..|t|] == t;
  }

  lemma ReceiptExampleMatch(t: string)
    requires t == "2024/1234"
    ensures ReceiptAt(t, 0) == Some(9)
  {
    assert DigitRun(t, 9) == 0 && DigitRun(t, 8) == 1 && DigitRun(t, 7) == 2 && DigitRun(t, 6) == 3;
    assert DigitRun(t, 5) == 4;
    assert DigitRun(t, 4) == 0 && DigitRun(t, 3) == 1 && DigitRun(t, 2) == 2 && DigitRun(t, 1) == 3;
    assert DigitRun(t, 0) == 4;
    assert ReceiptGroupsEnd(t, 9, 2) == 9;
  }

  lemma ReceiptExampleSlashes(t: string)
    requires t == "2024/1234"
    ensures DashToSlash(t) == t
  {
    forall i | 0 <= i < |t| ensures DashToSlash(t)[i] == t[i] {
      assert t[i] != '-';
    }
  }
}
