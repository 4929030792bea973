/**
 * The two loops of the image pre-processing helpers: Otsu's threshold over
 * the 256-bin grey-level histogram of an image, and the median confidence of
 * the OCR tokens whose text holds a digit.
 *
 * The histogram is the one an 8-bit grey ("L" mode) image gives, so it has
 * exactly 256 bins; the image itself and the pixel operations that use the
 * threshold are not part of this model. Python's float arithmetic is exact
 * `real` arithmetic here.
 */
module Preproc {
  import opened Outcomes
  import opened PyValues
  import opened Sorting
  import TE = TemplateExtraction

  // ---------------------------------------------------------------- Otsu

  /** The number of pixels in the bins below `n`. */
  function Weight(hist: seq<nat>, n: nat): nat
    requires n <= |hist|
  {
    if n == 0 then 0 else Weight(hist, n - 1) + hist[n - 1]
  }

  /** The sum of grey level times pixel count over the bins below `n`. */
  function Moment(hist: seq<nat>, n: nat): int
    requires n <= |hist|
  {
    if n == 0 then 0 else Moment(hist, n - 1) + (n - 1) * hist[n - 1]
  }

  /** All pixels of the histogram: `sum(hist)`. */
  function Total(hist: seq<nat>): nat { Weight(hist, |hist|) }

  /**
   * Threshold `t` splits the pixels into two non-empty classes: the
   * background (levels up to `t`) and the foreground (levels above `t`).
   */
  predicate Splits(hist: seq<nat>, t: nat)
    requires t < |hist|
  {
    0 < Weight(hist, t + 1) < Total(hist)
  }

  /** `w_bg * w_fg * (mean_bg - mean_fg) ** 2` for the given class weights and sums. */
  function BetweenVariance(wBg: int, wFg: int, sumBg: int, sumTotal: int): real
    requires wBg > 0 && wFg > 0
  {
    var meanBg := sumBg as real / wBg as real;
    var meanFg := (sumTotal - sumBg) as real / wFg as real;
    (wBg * wFg) as real * ((meanBg - meanFg) * (meanBg - meanFg))
  }

  /** The between-class variance of the split at `t`. */
  function Variance(hist: seq<nat>, t: nat): real
    requires t < |hist| && Splits(hist, t)
  {
    var w := Weight(hist, t + 1);
    BetweenVariance(w, Total(hist) - w, Moment(hist, t + 1), Moment(hist, |hist|))
  }

  lemma ProductNonNegative(a: real, b: real)
    requires a >= 0.0 && b >= 0.0
    ensures a * b >= 0.0
  {
  }

  lemma SquareNonNegative(d: real)
    ensures d * d >= 0.0
  {
    if d < 0.0 {
      ProductNonNegative(-d, -d);
    } else {
      ProductNonNegative(d, d);
    }
  }

  lemma VarianceNonNegative(hist: seq<nat>, t: nat)
    requires t < |hist| && Splits(hist, t)
    ensures Variance(hist, t) >= 0.0
  {
    var w := Weight(hist, t + 1);
    var wf := Total(hist) - w;
    var meanBg := Moment(hist, t + 1) as real / w as real;
    var meanFg := (Moment(hist, |hist|) - Moment(hist, t + 1)) as real / wf as real;
    var d := meanBg - meanFg;
    assert (w * wf) as real >= 0.0 by {
      ProductNonNegative(w as real, wf as real);
    }
    SquareNonNegative(d);
    ProductNonNegative((w * wf) as real, d * d);
  }

  /**
   * What the scan has found after visiting the thresholds below `n`: the
   * initial 127 and -1.0 while no threshold split the pixels, and otherwise
   * the first splitting threshold of largest variance, with that variance.
   */
  ghost predicate BestBelow(hist: seq<nat>, n: nat, threshold: int, varMax: real)
    requires n <= |hist|
  {
    && ((forall t :: 0 <= t < n ==> !Splits(hist, t)) ==> threshold == 127 && varMax == -1.0)
    && ((exists t :: 0 <= t < n && Splits(hist, t)) ==>
          && 0 <= threshold < n && Splits(hist, threshold) && varMax == Variance(hist, threshold)
          && forall t :: 0 <= t < n && Splits(hist, t) ==>
               Variance(hist, t) <= varMax && (t < threshold ==> Variance(hist, t) < varMax))
  }

  /** A threshold that does not split leaves the scan's findings as they are. */
  lemma BestSkip(hist: seq<nat>, n: nat, threshold: int, varMax: real)
    requires n < |hist| && BestBelow(hist, n, threshold, varMax) && !Splits(hist, n)
    ensures BestBelow(hist, n + 1, threshold, varMax)
  {
    if exists t :: 0 <= t < n + 1 && Splits(hist, t) {
      var t :| 0 <= t < n + 1 && Splits(hist, t);
      assert t < n;
    }
  }

  /** A splitting threshold replaces the best one exactly when its variance is larger. */
  lemma BestStep(hist: seq<nat>, n: nat, threshold: int, varMax: real)
    requires n < |hist| && BestBelow(hist, n, threshold, varMax) && Splits(hist, n)
    ensures var v := Variance(hist, n);
      BestBelow(hist, n + 1, if v > varMax then n else threshold, if v > varMax then v else varMax)
  {
    VarianceNonNegative(hist, n);
  }

  /** Once the background holds every pixel, no later threshold splits. */
  lemma NoSplitAfter(hist: seq<nat>, n: nat, m: nat)
    requires n <= m < |hist| && Weight(hist, n + 1) == Total(hist)
    ensures !Splits(hist, m)
  {
    WeightMonotone(hist, n + 1, m + 1);
    WeightMonotone(hist, m + 1, |hist|);
  }

  lemma {:induction false} WeightMonotone(hist: seq<nat>, m: nat, n: nat)
    requires m <= n <= |hist|
    ensures Weight(hist, m) <= Weight(hist, n)
    decreases n - m
  {
    if m < n {
      WeightMonotone(hist, m, n - 1);
    }
  }

  /** Bins that are all empty add no weight. */
  lemma {:induction false} WeightEmptyBins(hist: seq<nat>, m: nat, n: nat)
    requires m <= n <= |hist| && forall i :: m <= i < n ==> hist[i] == 0
    ensures Weight(hist, n) == Weight(hist, m)
    decreases n - m
  {
    if m < n {
      WeightEmptyBins(hist, m, n - 1);
    }
  }

  /**
   * `otsu_threshold`: scan every grey level, skipping levels with an empty
   * background and stopping at the first with an empty foreground, and keep
   * the first level of strictly largest between-class variance. The result
   * is 127 when no level splits the pixels.
   */
  method OtsuThreshold(hist: seq<nat>) returns (threshold: int)
    requires |hist| == 256
    ensures 0 <= threshold <= 255
    ensures (forall t :: 0 <= t < 256 ==> !Splits(hist, t)) ==> threshold == 127
    ensures (exists t :: 0 <= t < 256 && Splits(hist, t)) ==>
      && Splits(hist, threshold)
      && forall t :: 0 <= t < 256 && Splits(hist, t) ==>
           Variance(hist, t) <= Variance(hist, threshold)
           && (t < threshold ==> Variance(hist, t) < Variance(hist, threshold))
  {
    var total := Total(hist);
    var sumTotal := Moment(hist, 256);
    var sumBg := 0;
    var wBg := 0;
    var varMax := -1.0;
    threshold := 127;
    for t := 0 to 256
      invariant wBg == Weight(hist, t) && sumBg == Moment(hist, t)
      invariant BestBelow(hist, t, threshold, varMax)
    {
      wBg := wBg + hist[t];
      if wBg == 0 {
        BestSkip(hist, t, threshold, varMax);
        continue;
      }
      WeightMonotone(hist, t + 1, 256);
      var wFg := total - wBg;
      if wFg == 0 {
        forall m | t <= m < 256 ensures !Splits(hist, m) {
          NoSplitAfter(hist, t, m);
        }
        BestSkip(hist, t, threshold, varMax);
        assert BestBelow(hist, 256, threshold, varMax);
        break;
      }
      sumBg := sumBg + t * hist[t];
      var varBetween := BetweenVariance(wBg, wFg, sumBg, sumTotal);
      BestStep(hist, t, threshold, varMax);
      if varBetween > varMax {
        varMax := varBetween;
        threshold := t;
      }
    }
  }

  /** Every bin other than `k` is empty. */
  predicate OnlyBin(hist: seq<nat>, k: nat)
    requires |hist| == 256
  {
    forall i :: 0 <= i < 256 && i != k ==> hist[i] == 0
  }

  /**
   * No grey level splits the pixels exactly when the histogram is empty or
   * has at most one non-empty bin; `otsu_threshold` then returns 127.
   */
  lemma NoSplitIff(hist: seq<nat>)
    requires |hist| == 256
    ensures (forall t :: 0 <= t < 256 ==> !Splits(hist, t)) <==>
      Total(hist) == 0 || exists k :: 0 <= k < 256 && OnlyBin(hist, k)
  {
    if Total(hist) != 0 && exists k :: 0 <= k < 256 && OnlyBin(hist, k) {
      var k :| 0 <= k < 256 && OnlyBin(hist, k);
      forall t | 0 <= t < 256 ensures !Splits(hist, t) {
        if t < k {
          WeightEmptyBins(hist, 0, t + 1);
        } else {
          WeightEmptyBins(hist, t + 1, 256);
        }
      }
    }
    if forall t :: 0 <= t < 256 ==> !Splits(hist, t) {
      if Total(hist) != 0 {
        // The first non-empty bin k: everything else must be empty, or k splits.
        var k := FirstNonEmpty(hist);
        WeightEmptyBins(hist, 0, k);
        forall i | 0 <= i < 256 && i != k ensures hist[i] == 0 {
          if i > k && hist[i] != 0 {
            WeightMonotone(hist, k + 1, i);
            WeightMonotone(hist, i + 1, 256);
            assert Splits(hist, k);
          }
        }
        assert OnlyBin(hist, k);
      }
    }
  }

  /** The first non-empty bin of a histogram with some pixel. */
  lemma FirstNonEmpty(hist: seq<nat>) returns (k: nat)
    requires |hist| == 256 && Total(hist) != 0
    ensures k < 256 && hist[k] != 0 && forall i :: 0 <= i < k ==> hist[i] == 0
  {
    if forall i :: 0 <= i < 256 ==> hist[i] == 0 {
      WeightEmptyBins(hist, 0, 256);
      assert false;
    }
    k := 0;
    while hist[k] == 0
      invariant k < 256 && forall i :: 0 <= i < k ==> hist[i] == 0
      decreases 256 - k
    {
      k := k + 1;
    }
  }

  // ------------------------------------------------- median digit confidence

  /**
   * A token as `median_digit_confidence` reads it: an object whose `text`
   * and `confidence` attributes are given (VNone when the attribute is
   * missing), or a dict.
   */
  datatype Token = Obj(text: Value, confidence: Value) | DictToken(d: Dict)

  /** The token's text after `txt or ""`: a dict falls back to its "text" entry. */
  function TextOf(t: Token): Value
  {
    var txt := match t
      case Obj(text, _) => text
      case DictToken(d) => Get(d, "text", VStr(""));
    if Truthy(txt) then txt else VStr("")
  }

  /**
   * `any(ch.isdigit() for ch in txt)`: a string holds a digit character, a
   * list or tuple holds a digit string; anything else is not iterable.
   */
  function HasDigitText(txt: Value): Result<bool>
  {
    match txt
    case VStr(s) => Success(TE.HasDigit(s))
    case VList(items) => TE.AnyIsDigit(items)
    case VTuple(items) => TE.AnyIsDigit(items)
    case _ => Failure(TypeError("object is not iterable"))
  }

  /** The token's confidence: a dict falls back to "confidence", then "conf", then 0.0. */
  function ConfidenceOf(t: Token): Value
  {
    match t
    case Obj(_, c) => c
    case DictToken(d) => Get(d, "confidence", Get(d, "conf", VNum(0.0)))
  }

  /**
   * What the loop takes from one token: nothing when its text holds no
   * digit or its confidence does not convert to float, else that float.
   */
  function DigitConfidence(t: Token): (r: Result<Option<real>>)
    ensures r.Success? <==> HasDigitText(TextOf(t)).Success?
    ensures r.Success? ==>
      (r.value.Some? <==> HasDigitText(TextOf(t)).value && ToFloat(ConfidenceOf(t)).Success?)
    ensures r.Success? && r.value.Some? ==> ToFloat(ConfidenceOf(t)) == Success(r.value.value)
  {
    var dg := HasDigitText(TextOf(t));
    if dg.Failure? then Failure(dg.error)
    else if !dg.value then Success(None)
    else
      match ToFloat(ConfidenceOf(t))
      case Success(c) => Success(Some(c))
      case Failure(_) => Success(None)
  }

  function DigitOutcomes(tokens: seq<Token>): (outs: seq<Result<Option<real>>>)
    ensures |outs| == |tokens|
  {
    Map(tokens, DigitConfidence)
  }

  /** The confidences of the digit-bearing tokens, in token order. */
  function DigitConfidences(tokens: seq<Token>): Result<seq<real>>
  {
    Collect(DigitOutcomes(tokens))
  }

  /** `statistics.median`: the middle value, or the mean of the two middle values. */
  function Median(d: seq<real>): real
    requires d != []
  {
    var s := SortBy(d, TE.RealLe);
    var n := |d|;
    if n % 2 == 1 then s[n / 2] else (s[n / 2 - 1] + s[n / 2]) / 2.0
  }

  /** `median_digit_confidence`: 0.0 without digit-bearing confidences, else their median. */
  function MedianDigitConf(tokens: seq<Token>): Result<real>
  {
    match DigitConfidences(tokens)
    case Failure(e) => Failure(e)
    case Success(vals) => if vals == [] then Success(0.0) else Success(Median(vals))
  }

  /** The loop of `median_digit_confidence`, then the median of what it collected. */
  method MedianDigitConfidence(tokens: seq<Token>) returns (r: Result<real>)
    ensures r == MedianDigitConf(tokens)
  {
    ghost var outs := DigitOutcomes(tokens);
    var vals: seq<real> := [];
    for i := 0 to |tokens|
      invariant Collect(outs[..i]) == Success(vals)
    {
      assert outs[..i + 1][..i] == outs[..i];
      var t := tokens[i];
      var txt := match t
        case Obj(text, _) => text
        case DictToken(d) => Get(d, "text", VStr(""));
      if !Truthy(txt) {
        txt := VStr("");
      }
      var dg := HasDigitText(txt);
      if dg.Failure? {
        CollectFailureStays(outs, i + 1);
        return Failure(dg.error);
      }
      if dg.value {
        var conf := match t
          case Obj(_, c) => c
          case DictToken(d) => Get(d, "confidence", Get(d, "conf", VNum(0.0)));
        var f := ToFloat(conf);
        if f.Success? {
          vals := vals + [f.value];
        }
      }
    }
    assert outs[..|tokens|] == outs;
    if vals == [] {
      return Success(0.0);
    }
    return Success(Median(vals));
  }

  /** The loop raises exactly when some token's text cannot be searched for a digit. */
  lemma MedianDigitConfRaises(tokens: seq<Token>)
    ensures MedianDigitConf(tokens).Success? <==>
      forall i :: 0 <= i < |tokens| ==> HasDigitText(TextOf(tokens[i])).Success?
  {
    var outs := DigitOutcomes(tokens);
    CollectSpec(outs);
    forall i | 0 <= i < |tokens|
      ensures outs[i].Success? <==> HasDigitText(TextOf(tokens[i])).Success?
    {
      assert outs[i] == DigitConfidence(tokens[i]);
    }
  }

  /** Every collected value is the float confidence of a token whose text holds a digit. */
  lemma DigitConfidencesSound(tokens: seq<Token>, j: nat)
    requires DigitConfidences(tokens).Success? && j < |DigitConfidences(tokens).value|
    ensures exists i :: 0 <= i < |tokens| && HasDigitText(TextOf(tokens[i])) == Success(true)
                        && ToFloat(ConfidenceOf(tokens[i])) == Success(DigitConfidences(tokens).value[j])
  {
    var outs := DigitOutcomes(tokens);
    CollectSpec(outs);
    var v := DigitConfidences(tokens).value[j];
    var i :| 0 <= i < |outs| && outs[i] == Success(Some(v));
    var r := DigitConfidence(tokens[i]);
    assert r == Success(Some(v));
    assert HasDigitText(TextOf(tokens[i])) == Success(true);
    assert ToFloat(ConfidenceOf(tokens[i])) == Success(v);
  }

  /** The confidence of every token whose text holds a digit is collected when it converts. */
  lemma DigitConfidencesComplete(tokens: seq<Token>, i: nat)
    requires DigitConfidences(tokens).Success? && i < |tokens|
    requires HasDigitText(TextOf(tokens[i])) == Success(true) && ToFloat(ConfidenceOf(tokens[i])).Success?
    ensures ToFloat(ConfidenceOf(tokens[i])).value in DigitConfidences(tokens).value
  {
    var outs := DigitOutcomes(tokens);
    CollectSpec(outs);
    assert outs[i] == DigitConfidence(tokens[i]);
  }

  /**
   * Nothing is collected exactly when no token both holds a digit and has a
   * confidence that converts; the result is then 0.0.
   */
  lemma DigitConfidencesEmpty(tokens: seq<Token>)
    requires DigitConfidences(tokens).Success?
    ensures DigitConfidences(tokens).value == [] <==>
      forall i :: 0 <= i < |tokens| ==>
        HasDigitText(TextOf(tokens[i])) == Success(false) || ToFloat(ConfidenceOf(tokens[i])).Failure?
    ensures DigitConfidences(tokens).value == [] ==> MedianDigitConf(tokens) == Success(0.0)
  {
    var outs := DigitOutcomes(tokens);
    CollectSpec(outs);
    forall i | 0 <= i < |tokens|
      ensures outs[i].value.None? <==>
        HasDigitText(TextOf(tokens[i])) == Success(false) || ToFloat(ConfidenceOf(tokens[i])).Failure?
    {
      assert outs[i] == DigitConfidence(tokens[i]);
    }
  }

  /**
   * Reordering the tokens reorders what the loop collects: it succeeds for
   * both orders or for neither, and then collects the same values.
   */
  lemma DigitConfidencesPermutation(ts: seq<Token>, us: seq<Token>)
    requires multiset(ts) == multiset(us) && DigitConfidences(ts).Success?
    ensures DigitConfidences(us).Success?
    ensures multiset(DigitConfidences(ts).value) == multiset(DigitConfidences(us).value)
  {
    MapPermutation(ts, us, DigitConfidence);
    CollectPermutation(DigitOutcomes(ts), DigitOutcomes(us));
  }

  /**
   * `median_digit_confidence` does not depend on the order of the tokens:
   * it raises for both orders or for neither, and otherwise returns the same
   * value.
   */
  lemma MedianDigitConfPermutation(ts: seq<Token>, us: seq<Token>)
    requires multiset(ts) == multiset(us)
    ensures MedianDigitConf(ts).Success? <==> MedianDigitConf(us).Success?
    ensures MedianDigitConf(ts).Success? ==> MedianDigitConf(ts) == MedianDigitConf(us)
  {
    if DigitConfidences(ts).Success? {
      DigitConfidencesPermutation(ts, us);
      var d, e := DigitConfidences(ts).value, DigitConfidences(us).value;
      if d != [] {
        MedianPermutation(d, e);
      } else {
        assert multiset(e) == multiset{};
      }
    } else if DigitConfidences(us).Success? {
      DigitConfidencesPermutation(us, ts);
    }
  }

  // --------------------------------------------------------- the median

  /** The median is read off any sorted arrangement of the values. */
  lemma MedianSorted(d: seq<real>, s: seq<real>)
    requires d != [] && |s| == |d| && multiset(s) == multiset(d) && SortedBy(s, TE.RealLe)
    ensures Median(d) == if |d| % 2 == 1 then s[|d| / 2] else (s[|d| / 2 - 1] + s[|d| / 2]) / 2.0
  {
    TE.RealLeTotal();
    SortBySorted(d, TE.RealLe);
    SortedUnique(SortBy(d, TE.RealLe), s, TE.RealLe);
  }

  /**
   * The median splits the values in halves: in sorted order, every value of
   * the lower half (the middle one included) is at most the median and every
   * value of the upper half is at least the median.
   */
  lemma MedianHalves(d: seq<real>, s: seq<real>)
    requires d != [] && |s| == |d| && multiset(s) == multiset(d) && SortedBy(s, TE.RealLe)
    ensures forall i :: 0 <= i < (|d| + 1) / 2 ==> s[i] <= Median(d)
    ensures forall i :: |d| / 2 <= i < |d| ==> Median(d) <= s[i]
  {
    MedianSorted(d, s);
    SortedHalves(s, Median(d));
  }

  /** In a sorted sequence the middle value (or the mean of the two middle values) splits it in halves. */
  lemma {:induction false} SortedHalves(s: seq<real>, m: real)
    requires s != [] && SortedBy(s, TE.RealLe)
    requires m == if |s| % 2 == 1 then s[|s| / 2] else (s[|s| / 2 - 1] + s[|s| / 2]) / 2.0
    ensures forall i :: 0 <= i < (|s| + 1) / 2 ==> s[i] <= m
    ensures forall i :: |s| / 2 <= i < |s| ==> m <= s[i]
  {
    var n := |s|;
    forall i | 0 <= i < (n + 1) / 2 ensures s[i] <= m {
      if i < n / 2 {
        assert TE.RealLe(s[i], s[n / 2]);
      }
      if n % 2 == 0 && i < n / 2 - 1 {
        assert TE.RealLe(s[i], s[n / 2 - 1]);
      }
    }
    forall i | n / 2 <= i < n ensures m <= s[i] {
      if n / 2 < i {
        assert TE.RealLe(s[n / 2], s[i]);
      }
      if n % 2 == 0 {
        assert TE.RealLe(s[n / 2 - 1], s[i]);
      }
    }
  }

  /** The median lies between the smallest and the largest value. */
  lemma MedianBetween(d: seq<real>)
    requires d != []
    ensures exists i :: 0 <= i < |d| && d[i] <= Median(d)
    ensures exists j :: 0 <= j < |d| && Median(d) <= d[j]
  {
    var s := SortBy(d, TE.RealLe);
    TE.RealLeTotal();
    SortBySorted(d, TE.RealLe);
    MedianHalves(d, s);
    assert s[0] in multiset(d) && s[|d| - 1] in multiset(d);
  }

  /** Of an odd number of values the median is one of them. */
  lemma MedianOdd(d: seq<real>)
    requires |d| % 2 == 1
    ensures Median(d) in d
  {
    var s := SortBy(d, TE.RealLe);
    assert s[|d| / 2] in multiset(d);
  }

  /** The median does not depend on the order of the values. */
  lemma MedianPermutation(d: seq<real>, e: seq<real>)
    requires d != [] && multiset(d) == multiset(e)
    ensures e != [] && Median(d) == Median(e)
  {
    assert |e| == |multiset(e)| == |multiset(d)| == |d|;
    TE.RealLeTotal();
    SortByPermutationInvariant(d, e, TE.RealLe);
  }

  function ExampleTokens(): seq<Token>
  {
    [Obj(VStr("A1"), VNum(0.9)), Obj(VStr("B2"), VNum(0.7)),
     Obj(VStr("C"), VNum(0.2)), Obj(VStr("9"), VNum(0.4))]
  }

  lemma ExampleOutcomes()
    ensures DigitOutcomes(ExampleTokens()) ==
      [Success(Some(0.9)), Success(Some(0.7)), Success(None), Success(Some(0.4))]
  {
    assert Chars.IsDigit("A1"[1]) && Chars.IsDigit("B2"[1]) && Chars.IsDigit("9"[0]);
    assert !TE.HasDigit("C") by {
      assert forall i :: 0 <= i < |"C"| ==> "C"[i] == 'C';
    }
  }

  lemma ExampleCollected(outs: seq<Result<Option<real>>>)
    requires outs == [Success(Some(0.9)), Success(Some(0.7)), Success(None), Success(Some(0.4))]
    ensures Collect(outs) == Success([0.9, 0.7, 0.4])
  {
    assert outs[..1][..0] == [] && [] + [0.9] == [0.9];
    assert outs[..2][..1] == outs[..1] && outs[..3][..2] == outs[..2] && outs[..4] == outs;
    assert Collect(outs[..1]) == Success([0.9]);
    assert outs[..2][1] == outs[1] && [0.9] + [0.7] == [0.9, 0.7];
    assert Collect(outs[..2]) == Success([0.9, 0.7]);
    assert Collect(outs[..3]) == Success([0.9, 0.7]);
    assert [0.9, 0.7] + [0.4] == [0.9, 0.7, 0.4];
  }

  /** Token texts "A1", "B2", "C", "9" with confidences 0.9, 0.7, 0.2, 0.4 give 0.7. */
  lemma MedianDigitConfExample()
    ensures MedianDigitConf(ExampleTokens()) == Success(0.7)
  {
    ExampleOutcomes();
    ExampleCollected(DigitOutcomes(ExampleTokens()));
    var vals := [0.9, 0.7, 0.4];
    var s := [0.4, 0.7, 0.9];
    assert s == [vals[2], vals[1], vals[0]];
    assert multiset(s) == multiset(vals);
    MedianSorted(vals, s);
  }
}
