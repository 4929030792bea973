/**
 * Reconciling the results of the Arabic and the French engine
 * (src/ocr/hybrid.py): the two script tests, the script filter, the box
 * overlap test, the two-pass overlap de-duplication and the
 * filter-then-dedupe order of `process_document`. The engines themselves are
 * not modelled: their result lists are parameters.
 */
module Hybrid {
  import opened Outcomes
  import opened Chars
  import opened PyValues
  import opened Sorting
  import opened OcrBase

  // ------------------------------------------------------------- scripts

  /** `_is_arabic_text`: some character lies in U+0600-U+06FF; None reads as "". */
  predicate IsArabicText(s: Option<string>)
  {
    s.Some? && HasArabicChar(s.value)
  }

  /** `_is_latin_text`: some character lower-cases into a-z. */
  predicate IsLatinText(s: Option<string>)
  {
    s.Some? && HasLatinChar(s.value)
  }

  /** The script tests on None, on "" and on a string, in terms of the characters. */
  lemma ScriptTests(s: string)
    ensures !IsArabicText(None) && !IsLatinText(None)
    ensures !IsArabicText(Some("")) && !IsLatinText(Some(""))
    ensures IsArabicText(Some(s)) <==> exists i :: 0 <= i < |s| && IsArabicChar(s[i])
    ensures IsLatinText(Some(s)) <==> exists i :: 0 <= i < |s| && LowersToLatin(s[i])
  {
  }

  /** The test `_filter_by_script` applies to a result's text for `lang`. */
  predicate MatchesScript(lang: string, text: string)
  {
    (lang == "arabic" && IsArabicText(Some(text))) || (lang == "french" && IsLatinText(Some(text)))
  }

  function ScriptTest(lang: string): OCRResult -> bool
  {
    (r: OCRResult) => MatchesScript(lang, r.text)
  }

  /** `results or []` */
  function OrEmpty(results: Option<seq<OCRResult>>): seq<OCRResult>
  {
    if results.None? then [] else results.value
  }

  /** The results `_filter_by_script` keeps, in their order. */
  function ScriptFiltered(results: Option<seq<OCRResult>>, lang: string): seq<OCRResult>
  {
    Filter(OrEmpty(results), ScriptTest(lang))
  }

  /** `_filter_by_script` */
  method FilterByScript(results: Option<seq<OCRResult>>, lang: string) returns (out: seq<OCRResult>)
    ensures out == ScriptFiltered(results, lang)
  {
    var rs := if results.None? then [] else results.value;
    assert "arabic"[0] != "french"[0];
    out := [];
    var i := 0;
    while i < |rs|
      invariant 0 <= i <= |rs|
      invariant out == Filter(rs[..i], ScriptTest(lang))
    {
      var t := rs[i].text;
      FilterSnoc(rs, i, ScriptTest(lang));
      if lang == "arabic" && IsArabicText(Some(t)) {
        out := out + [rs[i]];
      } else if lang == "french" && IsLatinText(Some(t)) {
        out := out + [rs[i]];
      }
      i := i + 1;
    }
    assert rs[..|rs|] == rs;
  }

  /**
   * The filter keeps exactly the results whose text is in the script of
   * `lang`; any other `lang`, and a None list, give [].
   */
  lemma ScriptFilteredSpec(results: Option<seq<OCRResult>>, lang: string)
    ensures forall r :: r in ScriptFiltered(results, lang) <==> r in OrEmpty(results) && MatchesScript(lang, r.text)
    ensures lang != "arabic" && lang != "french" ==> ScriptFiltered(results, lang) == []
    ensures results.None? ==> ScriptFiltered(results, lang) == []
  {
    var rs := OrEmpty(results);
    forall r | r in ScriptFiltered(results, lang)
      ensures r in rs && MatchesScript(lang, r.text)
    {
      FilterSubset(rs, ScriptTest(lang), r);
    }
    forall r | r in rs && MatchesScript(lang, r.text)
      ensures r in ScriptFiltered(results, lang)
    {
      FilterKeeps(rs, ScriptTest(lang), r);
    }
    if lang != "arabic" && lang != "french" {
      FilterNone(rs, ScriptTest(lang));
    }
  }

  /** A result's `bbox` as `_dedupe_overlaps` finds it: falsy, or the parts of a truthy box. */
  datatype BoxRead = NoBox | Box(parts: seq<Value>)

  /** The result's `bbox`: None and the empty tuple are falsy. */
  function BoxOf(r: OCRResult): (b: BoxRead)
    ensures b.NoBox? <==> r.bbox.None? || r.bbox.value == []
    ensures b.Box? ==> b.parts == r.bbox.value
  {
    if r.bbox.None? || r.bbox.value == [] then NoBox else Box(r.bbox.value)
  }

  // ------------------------------------------------- Python `+` and `<`

  /** A number as Python's arithmetic sees it (a bool is 0 or 1). */
  function NumOf(v: Value): Option<real>
  {
    match v
    case VInt(i) => Some(i as real)
    case VNum(r) => Some(r)
    case VBool(b) => Some(if b then 1.0 else 0.0)
    case _ => None
  }

  /** An int or a bool as an int. */
  function IntOf(v: Value): int
    requires v.VInt? || v.VBool?
  {
    if v.VInt? then v.i else if v.b then 1 else 0
  }

  /**
   * `u + v`: numbers add (an int result unless a float takes part), strings,
   * lists and tuples concatenate; anything else raises TypeError.
   */
  function PyAdd(u: Value, v: Value): (r: Result<Value>)
    ensures r.Success? && NumOf(u).Some? && NumOf(v).Some? ==>
      NumOf(r.value) == Some(NumOf(u).value + NumOf(v).value)
    ensures r.Failure? ==> r.error.TypeError?
  {
    if NumOf(u).Some? && NumOf(v).Some? then
      if u.VNum? || v.VNum? then Success(VNum(NumOf(u).value + NumOf(v).value))
      else Success(VInt(IntOf(u) + IntOf(v)))
    else if u.VStr? && v.VStr? then Success(VStr(u.s + v.s))
    else if u.VList? && v.VList? then Success(VList(u.items + v.items))
    else if u.VTuple? && v.VTuple? then Success(VTuple(u.items + v.items))
    else Failure(TypeError("unsupported operand type(s) for +"))
  }

  /** Two lists, or two tuples: the values whose comparison is item by item. */
  predicate SameSeqKind(u: Value, v: Value)
  {
    (u.VList? && v.VList?) || (u.VTuple? && v.VTuple?)
  }

  /** `u == v`: numbers by value, strings, None, and lists or tuples item by item; mixed kinds differ. */
  function PyEq(u: Value, v: Value): bool
    decreases u, 1
  {
    if NumOf(u).Some? && NumOf(v).Some? then NumOf(u).value == NumOf(v).value
    else if u.VStr? && v.VStr? then u.s == v.s
    else if u.VNone? && v.VNone? then true
    else if SameSeqKind(u, v) then |u.items| == |v.items| && ItemsEq(u, v, 0)
    else false
  }

  /** The items of `u` and `v` from `i` on are pairwise equal. */
  function ItemsEq(u: Value, v: Value, i: nat): bool
    requires SameSeqKind(u, v) && |u.items| == |v.items|
    decreases u, 0, |u.items| - i
  {
    i >= |u.items| || (PyEq(u.items[i], v.items[i]) && ItemsEq(u, v, i + 1))
  }

  /** Lexicographic order on strings, by code point. */
  function StrLess(s: string, t: string): bool
  {
    if s == [] then t != []
    else if t == [] then false
    else if s[0] != t[0] then s[0] < t[0]
    else StrLess(s[1..], t[1..])
  }

  /**
   * `u < v`: numbers by value, strings lexicographically, lists or tuples at
   * their first unequal item (or by length when one is a prefix of the
   * other); anything else raises TypeError. `x > y` is `y < x` for all of
   * these.
   */
  function PyLess(u: Value, v: Value): (r: Result<bool>)
    ensures NumOf(u).Some? && NumOf(v).Some? ==> r == Success(NumOf(u).value < NumOf(v).value)
    ensures u.VStr? && v.VStr? ==> r == Success(StrLess(u.s, v.s))
    ensures r.Failure? ==> r.error.TypeError?
    decreases u, 1
  {
    if NumOf(u).Some? && NumOf(v).Some? then Success(NumOf(u).value < NumOf(v).value)
    else if u.VStr? && v.VStr? then Success(StrLess(u.s, v.s))
    else if SameSeqKind(u, v) then ItemsLess(u, v, 0)
    else Failure(TypeError("'<' not supported between these operands"))
  }

  /** The comparison of two lists or tuples from item `i` on. */
  function ItemsLess(u: Value, v: Value, i: nat): (r: Result<bool>)
    requires SameSeqKind(u, v)
    ensures r.Failure? ==> r.error.TypeError?
    decreases u, 0, |u.items| - i
  {
    if i >= |u.items| || i >= |v.items| then Success(|u.items| < |v.items|)
    else if PyEq(u.items[i], v.items[i]) then ItemsLess(u, v, i + 1)
    else PyLess(u.items[i], v.items[i])
  }

  /** `x < (e)` once `e` has been evaluated (or has raised). */
  function LessThan(x: Value, e: Result<Value>): Result<bool>
  {
    if e.Failure? then Failure(e.error) else PyLess(x, e.value)
  }

  /** `(e) > y` once `e` has been evaluated (or has raised). */
  function GreaterThan(e: Result<Value>, y: Value): Result<bool>
  {
    if e.Failure? then Failure(e.error) else PyLess(y, e.value)
  }

  /** `c and rest` on comparisons: `rest` counts only when `c` is true. */
  function AndThen(c: Result<bool>, rest: Result<bool>): Result<bool>
  {
    if c.Failure? then c else if !c.value then Success(false) else rest
  }

  // ------------------------------------------------------------- overlap

  /** An (x, y, w, h) box with numeric parts. */
  datatype Rect = Rect(x: real, y: real, w: real, h: real)

  function MaxR(a: real, b: real): real { if a >= b then a else b }

  function MinR(a: real, b: real): real { if a <= b then a else b }

  /**
   * The overlap test on numbers: for boxes with positive sides, the open
   * rectangles share a point on both axes.
   */
  function Overlap(a: Rect, b: Rect): (r: bool)
    ensures a.w > 0.0 && b.w > 0.0 && a.h > 0.0 && b.h > 0.0 ==>
      (r <==> MaxR(a.x, b.x) < MinR(a.x + a.w, b.x + b.w) && MaxR(a.y, b.y) < MinR(a.y + a.h, b.y + b.h))
  {
    a.x < b.x + b.w && a.x + a.w > b.x && a.y < b.y + b.h && a.y + a.h > b.y
  }

  /** The test is symmetric, and boxes that only share an edge do not overlap. */
  lemma OverlapSymmetricStrict(a: Rect, b: Rect)
    ensures Overlap(a, b) == Overlap(b, a)
    ensures a.x + a.w == b.x || b.x + b.w == a.x || a.y + a.h == b.y || b.y + b.h == a.y ==> !Overlap(a, b)
  {
  }

  /** A truthy box of four numbers. */
  predicate NumericBox(b: BoxRead)
  {
    b.Box? && |b.parts| == 4 && NumOf(b.parts[0]).Some? && NumOf(b.parts[1]).Some?
    && NumOf(b.parts[2]).Some? && NumOf(b.parts[3]).Some?
  }

  function RectOf(b: BoxRead): Rect
    requires NumericBox(b)
  {
    Rect(NumOf(b.parts[0]).value, NumOf(b.parts[1]).value, NumOf(b.parts[2]).value, NumOf(b.parts[3]).value)
  }

  /** The four comparisons of `_overlap`, left to right, each evaluated only if the ones before held. */
  function OverlapParts(a: seq<Value>, b: seq<Value>): (r: Result<bool>)
    requires |a| == 4 && |b| == 4
    ensures r.Failure? ==> r.error.TypeError?
    ensures NumericBox(Box(a)) && NumericBox(Box(b)) ==> r == Success(Overlap(RectOf(Box(a)), RectOf(Box(b))))
  {
    AndThen(LessThan(a[0], PyAdd(b[0], b[2])),
    AndThen(GreaterThan(PyAdd(a[0], a[2]), b[0]),
    AndThen(LessThan(a[1], PyAdd(b[1], b[3])),
      GreaterThan(PyAdd(a[1], a[3]), b[1]))))
  }

  /**
   * `_overlap(a, b)` on two truthy boxes: `a` is unpacked, then `b` (a box
   * that does not hold four parts raises ValueError), then the comparisons
   * run. On two boxes of four numbers it is the overlap test on numbers.
   */
  function OverlapOf(a: BoxRead, b: BoxRead): (r: Result<bool>)
    requires a.Box? && b.Box?
    ensures |a.parts| != 4 ==> r.Failure? && r.error.ValueError?
    ensures |a.parts| == 4 && |b.parts| != 4 ==> r.Failure? && r.error.ValueError?
    ensures |a.parts| == 4 && |b.parts| == 4 && r.Failure? ==> r.error.TypeError?
    ensures NumericBox(a) && NumericBox(b) ==> r == Success(Overlap(RectOf(a), RectOf(b)))
  {
    if |a.parts| != 4 then Failure(ValueError("not enough or too many values to unpack (expected 4)"))
    else if |b.parts| != 4 then Failure(ValueError("not enough or too many values to unpack (expected 4)"))
    else OverlapParts(a.parts, b.parts)
  }

  /**
   * The comparisons stop at the first that fails: once the x-extents are
   * apart, the y parts are never read, whatever they hold.
   */
  lemma OverlapShortCircuit(a: seq<Value>, b: seq<Value>)
    requires |a| == 4 && |b| == 4
    requires NumOf(a[0]).Some? && NumOf(a[2]).Some? && NumOf(b[0]).Some? && NumOf(b[2]).Some?
    requires var ax, aw, bx, bw := NumOf(a[0]).value, NumOf(a[2]).value, NumOf(b[0]).value, NumOf(b[2]).value;
      !(ax < bx + bw && ax + aw > bx)
    ensures OverlapOf(Box(a), Box(b)) == Success(false)
  {
  }

  /** A box whose height is None is still told apart from a box it cannot reach. */
  lemma OverlapNoneHeight()
    ensures OverlapOf(Box([VInt(0), VInt(0), VInt(1), VNone]), Box([VInt(5), VInt(5), VInt(1), VInt(1)])) == Success(false)
    ensures OverlapOf(Box([VInt(5), VInt(0), VInt(1), VNone]), Box([VInt(5), VInt(5), VInt(1), VInt(1)])).Failure?
  {
    OverlapShortCircuit([VInt(0), VInt(0), VInt(1), VNone], [VInt(5), VInt(5), VInt(1), VInt(1)]);
  }

  /** Boxes of four strings compare their concatenations. */
  lemma OverlapStrings(a: seq<Value>, b: seq<Value>)
    requires |a| == 4 && |b| == 4
    requires forall k :: 0 <= k < 4 ==> a[k].VStr? && b[k].VStr?
    ensures OverlapOf(Box(a), Box(b)) == Success(
      && StrLess(a[0].s, b[0].s + b[2].s) && StrLess(b[0].s, a[0].s + a[2].s)
      && StrLess(a[1].s, b[1].s + b[3].s) && StrLess(b[1].s, a[1].s + a[3].s))
  {
    assert a[0].VStr? && a[1].VStr? && a[2].VStr? && a[3].VStr?;
    assert b[0].VStr? && b[1].VStr? && b[2].VStr? && b[3].VStr?;
  }

  // -------------------------------------------------------- de-duplication

  /**
   * The inner loop of the first pass: does some French result with a box
   * overlap `abox` with at least the Arabic result's confidence?
   */
  function ArabicLoses(abox: BoxRead, conf: real, french: seq<OCRResult>): Result<bool>
    requires abox.Box?
    decreases |french|
  {
    if french == [] then Success(false)
    else
      var fbox := BoxOf(french[0]);
      if fbox.NoBox? then ArabicLoses(abox, conf, french[1..])
      else
        var o := OverlapOf(abox, fbox);
        if o.Failure? then Failure(o.error)
        else if o.value && conf <= french[0].confidence then Success(true)
        else ArabicLoses(abox, conf, french[1..])
  }

  /**
   * The inner loop of the second pass: does some kept Arabic result with a
   * box overlap `fbox` with a strictly greater confidence?
   */
  function FrenchLoses(fbox: BoxRead, conf: real, keepAr: seq<OCRResult>): Result<bool>
    requires fbox.Box?
    decreases |keepAr|
  {
    if keepAr == [] then Success(false)
    else
      var abox := BoxOf(keepAr[0]);
      if abox.NoBox? then FrenchLoses(fbox, conf, keepAr[1..])
      else
        var o := OverlapOf(abox, fbox);
        if o.Failure? then Failure(o.error)
        else if o.value && conf < keepAr[0].confidence then Success(true)
        else FrenchLoses(fbox, conf, keepAr[1..])
  }

  /** One Arabic result in the first pass: kept (Some), dropped (None) or raising. */
  function ArabicOutcome(ar: OCRResult, french: seq<OCRResult>): Result<Option<OCRResult>>
  {
    var abox := BoxOf(ar);
    if abox.NoBox? then Success(Some(ar))
    else
      var lost := ArabicLoses(abox, ar.confidence, french);
      if lost.Failure? then Failure(lost.error)
      else if lost.value then Success(None)
      else Success(Some(ar))
  }

  /** One French result in the second pass, against the kept Arabic results. */
  function FrenchOutcome(fr: OCRResult, keepAr: seq<OCRResult>): Result<Option<OCRResult>>
  {
    var fbox := BoxOf(fr);
    if fbox.NoBox? then Success(Some(fr))
    else
      var lost := FrenchLoses(fbox, fr.confidence, keepAr);
      if lost.Failure? then Failure(lost.error)
      else if lost.value then Success(None)
      else Success(Some(fr))
  }

  function ArabicOutcomes(arabic: seq<OCRResult>, french: seq<OCRResult>): (outs: seq<Result<Option<OCRResult>>>)
    ensures |outs| == |arabic|
  {
    seq(|arabic|, i requires 0 <= i < |arabic| => ArabicOutcome(arabic[i], french))
  }

  function FrenchOutcomes(french: seq<OCRResult>, keepAr: seq<OCRResult>): (outs: seq<Result<Option<OCRResult>>>)
    ensures |outs| == |french|
  {
    seq(|french|, i requires 0 <= i < |french| => FrenchOutcome(french[i], keepAr))
  }

  /** `_dedupe_overlaps`: the kept Arabic results, then the kept French results. */
  function Dedupe(arabic: seq<OCRResult>, french: seq<OCRResult>): Result<(seq<OCRResult>, seq<OCRResult>)>
  {
    var ka := Collect(ArabicOutcomes(arabic, french));
    if ka.Failure? then Failure(ka.error)
    else
      var kf := Collect(FrenchOutcomes(french, ka.value));
      if kf.Failure? then Failure(kf.error)
      else Success((ka.value, kf.value))
  }

  /** The first pass's inner loop. */
  method ScanFrench(abox: BoxRead, conf: real, french: seq<OCRResult>) returns (lost: Result<bool>)
    requires abox.Box?
    ensures lost == ArabicLoses(abox, conf, french)
  {
    var j := 0;
    assert french[j..] == french;
    while j < |french|
      invariant 0 <= j <= |french|
      invariant ArabicLoses(abox, conf, french) == ArabicLoses(abox, conf, french[j..])
    {
      assert french[j..][1..] == french[j + 1..];
      var fbox := BoxOf(french[j]);
      if fbox.NoBox? {
        j := j + 1;
        continue;
      }
      var o := OverlapOf(abox, fbox);
      if o.Failure? {
        return Failure(o.error);
      }
      if o.value && conf <= french[j].confidence {
        return Success(true);
      }
      j := j + 1;
    }
    return Success(false);
  }

  /** The second pass's inner loop. */
  method ScanKeptArabic(fbox: BoxRead, conf: real, keepAr: seq<OCRResult>) returns (lost: Result<bool>)
    requires fbox.Box?
    ensures lost == FrenchLoses(fbox, conf, keepAr)
  {
    var j := 0;
    assert keepAr[j..] == keepAr;
    while j < |keepAr|
      invariant 0 <= j <= |keepAr|
      invariant FrenchLoses(fbox, conf, keepAr) == FrenchLoses(fbox, conf, keepAr[j..])
    {
      assert keepAr[j..][1..] == keepAr[j + 1..];
      var abox := BoxOf(keepAr[j]);
      if abox.NoBox? {
        j := j + 1;
        continue;
      }
      var o := OverlapOf(abox, fbox);
      if o.Failure? {
        return Failure(o.error);
      }
      if o.value && conf < keepAr[j].confidence {
        return Success(true);
      }
      j := j + 1;
    }
    return Success(false);
  }

  /** The first pass of `_dedupe_overlaps`: the Arabic results to keep. */
  method KeepArabic(arabic: seq<OCRResult>, french: seq<OCRResult>) returns (r: Result<seq<OCRResult>>)
    ensures r == Collect(ArabicOutcomes(arabic, french))
  {
    ghost var outs := ArabicOutcomes(arabic, french);
    var keepAr: seq<OCRResult> := [];
    var i := 0;
    while i < |arabic|
      invariant 0 <= i <= |arabic|
      invariant Collect(outs[..i]) == Success(keepAr)
    {
      assert outs[..i + 1][..i] == outs[..i];
      var ar := arabic[i];
      var abox := BoxOf(ar);
      if abox.NoBox? {
        keepAr := keepAr + [ar];
        i := i + 1;
        continue;
      }
      var lost := ScanFrench(abox, ar.confidence, french);
      if lost.Failure? {
        CollectFailureStays(outs, i + 1);
        return Failure(lost.error);
      }
      if !lost.value {
        keepAr := keepAr + [ar];
      }
      i := i + 1;
    }
    assert outs[..|arabic|] == outs;
    return Success(keepAr);
  }

  /** The second pass of `_dedupe_overlaps`: the French results to keep. */
  method KeepFrench(french: seq<OCRResult>, keepAr: seq<OCRResult>) returns (r: Result<seq<OCRResult>>)
    ensures r == Collect(FrenchOutcomes(french, keepAr))
  {
    ghost var outs := FrenchOutcomes(french, keepAr);
    var keepFr: seq<OCRResult> := [];
    var k := 0;
    while k < |french|
      invariant 0 <= k <= |french|
      invariant Collect(outs[..k]) == Success(keepFr)
    {
      assert outs[..k + 1][..k] == outs[..k];
      var fr := french[k];
      var fbox := BoxOf(fr);
      if fbox.NoBox? {
        keepFr := keepFr + [fr];
        k := k + 1;
        continue;
      }
      var lost := ScanKeptArabic(fbox, fr.confidence, keepAr);
      if lost.Failure? {
        CollectFailureStays(outs, k + 1);
        return Failure(lost.error);
      }
      if !lost.value {
        keepFr := keepFr + [fr];
      }
      k := k + 1;
    }
    assert outs[..|french|] == outs;
    return Success(keepFr);
  }

  /** `_dedupe_overlaps` */
  method DedupeOverlaps(arabic: seq<OCRResult>, french: seq<OCRResult>)
    returns (r: Result<(seq<OCRResult>, seq<OCRResult>)>)
    ensures r == Dedupe(arabic, french)
  {
    var keepAr := KeepArabic(arabic, french);
    if keepAr.Failure? {
      return Failure(keepAr.error);
    }
    var keepFr := KeepFrench(french, keepAr.value);
    if keepFr.Failure? {
      return Failure(keepFr.error);
    }
    return Success((keepAr.value, keepFr.value));
  }

  // ------------------------------------------------ de-duplication lemmas

  /** The first pass keeps `a`. */
  function ArabicKept(french: seq<OCRResult>): OCRResult -> bool
  {
    (a: OCRResult) => ArabicOutcome(a, french) == Success(Some(a))
  }

  /** The second pass keeps `f`. */
  function FrenchKept(keepAr: seq<OCRResult>): OCRResult -> bool
  {
    (f: OCRResult) => FrenchOutcome(f, keepAr) == Success(Some(f))
  }

  /** A loop whose items each yield themselves or nothing is a filter. */
  lemma {:induction false} CollectAsFilter<T>(outs: seq<Result<Option<T>>>, xs: seq<T>, p: T -> bool)
    requires |outs| == |xs|
    requires forall i :: 0 <= i < |xs| ==> outs[i] == Success(if p(xs[i]) then Some(xs[i]) else None)
    ensures Collect(outs) == Success(Filter(xs, p))
  {
    if xs != [] {
      var n := |xs| - 1;
      assert forall i :: 0 <= i < n ==> outs[..n][i] == outs[i] && xs[..n][i] == xs[i];
      CollectAsFilter(outs[..n], xs[..n], p);
      assert outs[..|outs| - 1] == outs[..n];
      assert outs[n] == Success(if p(xs[n]) then Some(xs[n]) else None);
      assert Collect(outs[..n]) == Success(Filter(xs[..n], p));
      FilterSnoc(xs, n, p);
      assert xs[..n + 1] == xs;
      assert Filter(xs, p) == Filter(xs[..n], p) + (if p(xs[n]) then [xs[n]] else []);
      if p(xs[n]) {
        assert Collect(outs) == Success(Collect(outs[..n]).value + [xs[n]]);
      } else {
        assert Collect(outs) == Collect(outs[..n]);
        assert Filter(xs[..n], p) + [] == Filter(xs[..n], p);
      }
    }
  }

  /** The first pass, when it does not raise, is an order-preserving filter. */
  lemma ArabicPassFilter(arabic: seq<OCRResult>, french: seq<OCRResult>)
    ensures Collect(ArabicOutcomes(arabic, french)).Success? ==>
      Collect(ArabicOutcomes(arabic, french)).value == Filter(arabic, ArabicKept(french))
  {
    var outs := ArabicOutcomes(arabic, french);
    CollectSpec(outs);
    if Collect(outs).Success? {
      forall i | 0 <= i < |arabic|
        ensures outs[i] == Success(if ArabicKept(french)(arabic[i]) then Some(arabic[i]) else None)
      {
        assert outs[i] == ArabicOutcome(arabic[i], french);
      }
      CollectAsFilter(outs, arabic, ArabicKept(french));
    }
  }

  /** The second pass, when it does not raise, is an order-preserving filter. */
  lemma FrenchPassFilter(french: seq<OCRResult>, keepAr: seq<OCRResult>)
    ensures Collect(FrenchOutcomes(french, keepAr)).Success? ==>
      Collect(FrenchOutcomes(french, keepAr)).value == Filter(french, FrenchKept(keepAr))
  {
    var outs := FrenchOutcomes(french, keepAr);
    CollectSpec(outs);
    if Collect(outs).Success? {
      forall i | 0 <= i < |french|
        ensures outs[i] == Success(if FrenchKept(keepAr)(french[i]) then Some(french[i]) else None)
      {
        assert outs[i] == FrenchOutcome(french[i], keepAr);
      }
      CollectAsFilter(outs, french, FrenchKept(keepAr));
    }
  }

  /**
   * On success both passes are order-preserving filters: the Arabic results
   * the first pass keeps, then the French results the second pass keeps
   * against them.
   */
  lemma DedupeFilters(arabic: seq<OCRResult>, french: seq<OCRResult>)
    ensures Dedupe(arabic, french).Success? ==>
      && Dedupe(arabic, french).value.0 == Filter(arabic, ArabicKept(french))
      && Dedupe(arabic, french).value.1 == Filter(french, FrenchKept(Dedupe(arabic, french).value.0))
  {
    ArabicPassFilter(arabic, french);
    if Collect(ArabicOutcomes(arabic, french)).Success? {
      FrenchPassFilter(french, Collect(ArabicOutcomes(arabic, french)).value);
    }
  }

  /** Results whose bbox is falsy are always kept. */
  lemma FalsyBoxesKept(arabic: seq<OCRResult>, french: seq<OCRResult>, x: OCRResult)
    requires Dedupe(arabic, french).Success? && BoxOf(x).NoBox?
    ensures x in arabic ==> x in Dedupe(arabic, french).value.0
    ensures x in french ==> x in Dedupe(arabic, french).value.1
  {
    DedupeFilters(arabic, french);
    if x in arabic {
      FilterKeeps(arabic, ArabicKept(french), x);
    }
    if x in french {
      FilterKeeps(french, FrenchKept(Dedupe(arabic, french).value.0), x);
    }
  }

  /** When the first pass's scan finds nothing, no boxed French result beats or ties the Arabic one where they overlap. */
  lemma {:induction false} ArabicLosesFalse(abox: BoxRead, conf: real, french: seq<OCRResult>, k: nat)
    requires abox.Box? && ArabicLoses(abox, conf, french) == Success(false)
    requires k < |french| && !BoxOf(french[k]).NoBox?
    ensures OverlapOf(abox, BoxOf(french[k])).Success?
    ensures OverlapOf(abox, BoxOf(french[k])).value ==> conf > french[k].confidence
  {
    if k > 0 {
      assert french[1..][k - 1] == french[k];
      ArabicLosesFalse(abox, conf, french[1..], k - 1);
    }
  }

  /** When the second pass's scan finds nothing, no boxed kept Arabic result beats the French one where they overlap. */
  lemma {:induction false} FrenchLosesFalse(fbox: BoxRead, conf: real, keepAr: seq<OCRResult>, k: nat)
    requires fbox.Box? && FrenchLoses(fbox, conf, keepAr) == Success(false)
    requires k < |keepAr| && !BoxOf(keepAr[k]).NoBox?
    ensures OverlapOf(BoxOf(keepAr[k]), fbox).Success?
    ensures OverlapOf(BoxOf(keepAr[k]), fbox).value ==> conf >= keepAr[k].confidence
  {
    if k > 0 {
      assert keepAr[1..][k - 1] == keepAr[k];
      FrenchLosesFalse(fbox, conf, keepAr[1..], k - 1);
    }
  }

  /** An Arabic survivor with a box beats every boxed French input it overlaps, strictly. */
  lemma ArabicSurvivorsWin(arabic: seq<OCRResult>, french: seq<OCRResult>, a: OCRResult, f: OCRResult)
    requires Dedupe(arabic, french).Success? && a in Dedupe(arabic, french).value.0 && f in french
    requires NumericBox(BoxOf(a)) && NumericBox(BoxOf(f)) && Overlap(RectOf(BoxOf(a)), RectOf(BoxOf(f)))
    ensures a.confidence > f.confidence
  {
    ArabicPassFilter(arabic, french);
    FilterSubset(arabic, ArabicKept(french), a);
    var k :| 0 <= k < |french| && french[k] == f;
    ArabicLosesFalse(BoxOf(a), a.confidence, french, k);
  }

  /** A French survivor with a box is at least as confident as every boxed kept Arabic result it overlaps. */
  lemma FrenchSurvivorsHold(arabic: seq<OCRResult>, french: seq<OCRResult>, a: OCRResult, f: OCRResult)
    requires Dedupe(arabic, french).Success?
    requires a in Dedupe(arabic, french).value.0 && f in Dedupe(arabic, french).value.1
    requires NumericBox(BoxOf(a)) && NumericBox(BoxOf(f)) && Overlap(RectOf(BoxOf(a)), RectOf(BoxOf(f)))
    ensures f.confidence >= a.confidence
  {
    var keepAr := Dedupe(arabic, french).value.0;
    FrenchPassFilter(french, keepAr);
    FilterSubset(french, FrenchKept(keepAr), f);
    var k :| 0 <= k < |keepAr| && keepAr[k] == a;
    FrenchLosesFalse(BoxOf(f), f.confidence, keepAr, k);
  }

  /** No surviving boxed Arabic result overlaps a surviving boxed French result. */
  lemma NoCrossOverlap(arabic: seq<OCRResult>, french: seq<OCRResult>, a: OCRResult, f: OCRResult)
    requires Dedupe(arabic, french).Success?
    requires a in Dedupe(arabic, french).value.0 && f in Dedupe(arabic, french).value.1
    requires NumericBox(BoxOf(a)) && NumericBox(BoxOf(f))
    ensures !Overlap(RectOf(BoxOf(a)), RectOf(BoxOf(f)))
  {
    if Overlap(RectOf(BoxOf(a)), RectOf(BoxOf(f))) {
      DedupeFilters(arabic, french);
      FilterSubset(french, FrenchKept(Dedupe(arabic, french).value.0), f);
      ArabicSurvivorsWin(arabic, french, a, f);
      FrenchSurvivorsHold(arabic, french, a, f);
    }
  }

  /**
   * One overlapping pair: the more confident result survives alone, and on
   * equal confidence the French one is kept and the Arabic one dropped.
   */
  lemma OverlappingPair(a: OCRResult, f: OCRResult)
    requires NumericBox(BoxOf(a)) && NumericBox(BoxOf(f)) && Overlap(RectOf(BoxOf(a)), RectOf(BoxOf(f)))
    ensures Dedupe([a], [f]) == if a.confidence > f.confidence then Success(([a], [])) else Success(([], [f]))
  {
    var arOuts := ArabicOutcomes([a], [f]);
    assert [f][0] == f && [f][1..] == [];
    assert ArabicLoses(BoxOf(a), a.confidence, [f]) == Success(a.confidence <= f.confidence);
    var keepAr := if a.confidence > f.confidence then [a] else [];
    assert arOuts[0] == ArabicOutcome(a, [f]) == Success(if a.confidence > f.confidence then Some(a) else None);
    assert arOuts[..0] == [] && [] + [a] == [a];
    assert Collect(arOuts) == Success(keepAr);
    var frOuts := FrenchOutcomes([f], keepAr);
    if keepAr != [] {
      assert keepAr[0] == a && keepAr[1..] == [];
      assert FrenchLoses(BoxOf(f), f.confidence, keepAr) == Success(true);
    }
    assert frOuts[0] == FrenchOutcome(f, keepAr) == Success(if a.confidence > f.confidence then None else Some(f));
    assert frOuts[..0] == [] && [] + [f] == [f];
    assert Collect(frOuts) == Success(if a.confidence > f.confidence then [] else [f]);
  }

  // ----------------------------------------------------- process_document

  /** `process_document`: both lists script-filtered, then de-duplicated against each other. */
  function HybridOf(arabicOut: Option<seq<OCRResult>>, frenchOut: Option<seq<OCRResult>>)
    : Result<map<string, seq<OCRResult>>>
  {
    var d := Dedupe(ScriptFiltered(arabicOut, "arabic"), ScriptFiltered(frenchOut, "french"));
    if d.Failure? then Failure(d.error) else Success(map["arabic" := d.value.0, "french" := d.value.1])
  }

  /**
   * `process_document` once both engines have returned (None standing for a
   * falsy return).
   */
  method ProcessDocument(arabicOut: Option<seq<OCRResult>>, frenchOut: Option<seq<OCRResult>>)
    returns (r: Result<map<string, seq<OCRResult>>>)
    ensures r == HybridOf(arabicOut, frenchOut)
  {
    var arabic := FilterByScript(arabicOut, "arabic");
    var french := FilterByScript(frenchOut, "french");
    var d := DedupeOverlaps(arabic, french);
    if d.Failure? {
      return Failure(d.error);
    }
    return Success(map["arabic" := d.value.0, "french" := d.value.1]);
  }

  /** The de-duplicated lists hold only results of their own input. */
  lemma DedupeSubsets(arabic: seq<OCRResult>, french: seq<OCRResult>)
    ensures Dedupe(arabic, french).Success? ==>
      && (forall x :: x in Dedupe(arabic, french).value.0 ==> x in arabic)
      && (forall x :: x in Dedupe(arabic, french).value.1 ==> x in french)
  {
    DedupeFilters(arabic, french);
    var d := Dedupe(arabic, french);
    if d.Success? {
      forall x | x in d.value.0 ensures x in arabic {
        FilterSubset(arabic, ArabicKept(french), x);
      }
      forall x | x in d.value.1 ensures x in french {
        FilterSubset(french, FrenchKept(d.value.0), x);
      }
    }
  }

  /**
   * The result has exactly the keys "arabic" and "french"; each holds
   * results of its own engine in its own script.
   */
  lemma HybridOfSpec(arabicOut: Option<seq<OCRResult>>, frenchOut: Option<seq<OCRResult>>)
    ensures var r := HybridOf(arabicOut, frenchOut);
      r.Success? ==>
        && r.value.Keys == {"arabic", "french"}
        && (forall x :: x in r.value["arabic"] ==> x in OrEmpty(arabicOut) && IsArabicText(Some(x.text)))
        && (forall x :: x in r.value["french"] ==> x in OrEmpty(frenchOut) && IsLatinText(Some(x.text)))
  {
    ScriptFilteredSpec(arabicOut, "arabic");
    ScriptFilteredSpec(frenchOut, "french");
    DedupeSubsets(ScriptFiltered(arabicOut, "arabic"), ScriptFiltered(frenchOut, "french"));
    assert "arabic"[0] != "french"[0];
  }
}
