/**
 * The OCR result record and the engine-independent parts of the base OCR
 * engine (src/ocr/base.py): the record's dict form, the page-segmentation
 * rule, the parsing of Tesseract's column dict into results, the stored
 * last results and their mean confidence, and the empty-image guard.
 *
 * The Tesseract call itself is not modelled: the column dict it returns is
 * a parameter.
 */
module OcrBase {
  import opened Outcomes
  import opened Chars
  import opened PyValues

  /**
   * `OCRResult`: text, confidence, an optional bbox tuple, page and lang.
   * Page and lang are whatever values were stored (normally an int and a
   * string, or None).
   */
  datatype OCRResult = OCRResult(text: string, confidence: real, bbox: Option<seq<Value>>, page: Value, lang: Value)

  const ResultKeys: set<string> := {"text", "confidence", "bbox", "page", "lang"}

  /** `OCRResult.to_dict`: the five fields, with the bbox tuple as a list. */
  function ToDict(r: OCRResult): (d: Dict)
    ensures d.Keys == ResultKeys
    ensures d["text"] == VStr(r.text) && d["confidence"] == VNum(r.confidence)
    ensures d["page"] == r.page && d["lang"] == r.lang
    ensures d["bbox"] == (if r.bbox.Some? then VList(r.bbox.value) else VNone)
  {
    map["text" := VStr(r.text), "confidence" := VNum(r.confidence),
        "bbox" := (if r.bbox.Some? then VList(r.bbox.value) else VNone),
        "page" := r.page, "lang" := r.lang]
  }

  // ------------------------------------------------- page segmentation

  /** `get_page_segmentation_mode` on an image of the given height and width. */
  function PageSegmentationMode(height: nat, width: nat): (r: Result<int>)
    ensures r.Failure? <==> height == 0
    ensures r.Failure? ==> r.error == ZeroDivisionError
    ensures r.Success? ==> r.value in {1, 3, 6}
  {
    if height == 0 then Failure(ZeroDivisionError)
    else
      var aspect := width as real / height as real;
      if aspect > 1.4 then Success(1)
      else if aspect < 0.8 then Success(3)
      else Success(6)
  }

  /** The rule in whole numbers: landscape beyond 7:5 is 1, portrait below 4:5 is 3. */
  lemma PageSegmentationModeRatio(height: nat, width: nat)
    requires height > 0
    ensures var r := PageSegmentationMode(height, width).value;
      && (r == 1 <==> 5 * width > 7 * height)
      && (r == 3 <==> 5 * width < 4 * height)
      && (r == 6 <==> 4 * height <= 5 * width <= 7 * height)
  {
    QuotientCompare(width as real, height as real, 1.4);
    QuotientCompare(width as real, height as real, 0.8);
  }

  lemma QuotientCompare(w: real, h: real, c: real)
    requires h > 0.0
    ensures w / h > c <==> w > c * h
    ensures w / h < c <==> w < c * h
  {
    var q := w / h;
    assert q * h == w;
    if q > c {
      assert (q - c) * h > 0.0;
    } else if q < c {
      assert (c - q) * h > 0.0;
    } else {
      assert q * h == c * h;
    }
  }

  lemma ScaleCompare(x: int, y: int, k: int)
    requires k > 0
    ensures x < y <==> k * x < k * y
  {
    if x < y {
      assert k * y - k * x == k * (y - x) > 0;
    } else {
      assert k * x - k * y == k * (x - y) >= 0;
    }
  }

  /** Scaling both sides by the same factor keeps the mode. */
  lemma PageSegmentationModeScale(height: nat, width: nat, k: nat)
    requires height > 0 && k > 0
    ensures PageSegmentationMode(k * height, k * width) == PageSegmentationMode(height, width)
  {
    PageSegmentationModeRatio(height, width);
    PageSegmentationModeRatio(k * height, k * width);
    assert 5 * (k * width) == k * (5 * width) && 7 * (k * height) == k * (7 * height);
    assert 4 * (k * height) == k * (4 * height);
    ScaleCompare(7 * height, 5 * width, k);
    ScaleCompare(5 * width, 4 * height, k);
  }

  // ------------------------------------------------- empty-image guard

  /** Number of pixels of an array with the given shape. */
  function Size(shape: seq<nat>): nat
  {
    if shape == [] then 1 else Size(shape[..|shape| - 1]) * shape[|shape| - 1]
  }

  lemma {:induction false} SizeZeroIff(shape: seq<nat>)
    ensures Size(shape) == 0 <==> exists i :: 0 <= i < |shape| && shape[i] == 0
  {
    if shape != [] {
      var init := shape[..|shape| - 1];
      SizeZeroIff(init);
      assert forall i :: 0 <= i < |init| ==> init[i] == shape[i];
    }
  }

  /** The guard of `process_image`: None, or an image with no pixels, raises ValueError. */
  function CheckImage(image: Option<seq<nat>>): (r: Option<Error>)
    ensures r.Some? ==> r.value.ValueError?
    ensures r.None? <==> image.Some? && forall i :: 0 <= i < |image.value| ==> image.value[i] > 0
  {
    if image.None? then Some(ValueError("Invalid image input"))
    else
      SizeZeroIff(image.value);
      if Size(image.value) == 0 then Some(ValueError("Invalid image input")) else None
  }

  // ---------------------------------------------------- Tesseract data

  /**
   * The dict of `pytesseract.image_to_data(..., Output.DICT)`: its columns by
   * name (`None` when the key is absent) and the `page_num` entry.
   */
  datatype TessData = TessData(
    text: seq<Value>,
    conf: Option<seq<Value>>,
    left: Option<seq<Value>>,
    top: Option<seq<Value>>,
    width: Option<seq<Value>>,
    height: Option<seq<Value>>,
    pageNum: Option<Value>)

  /** `(d["text"][i] or "").strip()`; a non-string text has no `strip`. */
  function TextAt(d: TessData, i: nat): Result<string>
    requires i < |d.text|
  {
    var v := d.text[i];
    if !Truthy(v) then Success("")
    else if v.VStr? then Success(Strip(v.s))
    else Failure(AttributeError("strip"))
  }

  /** The guarded `float(d["conf"][i])`: any failure, a missing column included, gives -1.0. */
  function ConfAt(d: TessData, i: nat): real
  {
    if d.conf.Some? && i < |d.conf.value| && ToFloat(d.conf.value[i]).Success? then
      ToFloat(d.conf.value[i]).value
    else -1.0
  }

  /** `d[name][i]` */
  function Cell(column: Option<seq<Value>>, name: string, i: nat): (r: Result<Value>)
    ensures r.Success? <==> column.Some? && i < |column.value|
  {
    if column.None? then Failure(KeyError(name))
    else if i < |column.value| then Success(column.value[i])
    else Failure(IndexError(i))
  }

  /** The page of row `i`: the `page_num` list's entry, else the scalar, else 1. */
  function PageAt(d: TessData, i: nat): Result<Value>
  {
    match d.pageNum
    case None => Success(VInt(1))
    case Some(VList(pages)) => if i < |pages| then Success(pages[i]) else Failure(IndexError(i))
    case Some(v) => Success(v)
  }

  /** Row `i` is kept: its stripped text is non-empty and its confidence is at least 0. */
  predicate Kept(d: TessData, i: nat)
    requires i < |d.text|
  {
    TextAt(d, i).Success? && |TextAt(d, i).value| > 0 && ConfAt(d, i) >= 0.0
  }

  /** The result built for a kept row; the bbox cells and the page are read in that order. */
  function RowResult(d: TessData, lang: string, i: nat): Result<OCRResult>
    requires i < |d.text| && Kept(d, i)
  {
    var l := Cell(d.left, "left", i);
    var t := Cell(d.top, "top", i);
    var w := Cell(d.width, "width", i);
    var h := Cell(d.height, "height", i);
    var p := PageAt(d, i);
    if l.Failure? then Failure(l.error)
    else if t.Failure? then Failure(t.error)
    else if w.Failure? then Failure(w.error)
    else if h.Failure? then Failure(h.error)
    else if p.Failure? then Failure(p.error)
    else Success(OCRResult(TextAt(d, i).value, ConfAt(d, i),
                           Some([l.value, t.value, w.value, h.value]), p.value, VStr(lang)))
  }

  /**
   * What row `i` contributes: an exception, nothing (a blank text or a
   * negative confidence), or one result.
   */
  function RowOutcome(d: TessData, lang: string, i: nat): Result<Option<OCRResult>>
    requires i < |d.text|
  {
    var text := TextAt(d, i);
    if text.Failure? then Failure(text.error)
    else if !Kept(d, i) then Success(None)
    else
      var row := RowResult(d, lang, i);
      if row.Failure? then Failure(row.error) else Success(Some(row.value))
  }

  /** One step of the parse: an earlier exception stays, a row's exception ends it, a result is appended. */
  function ParseStep(prev: Result<seq<OCRResult>>, row: Result<Option<OCRResult>>): Result<seq<OCRResult>>
  {
    if prev.Failure? then prev
    else if row.Failure? then Failure(row.error)
    else if row.value.None? then prev
    else Success(prev.value + [row.value.value])
  }

  /** The results of the first `n` rows, or the first exception. */
  function ParsedUpTo(d: TessData, lang: string, n: nat): Result<seq<OCRResult>>
    requires n <= |d.text|
  {
    if n == 0 then Success([])
    else ParseStep(ParsedUpTo(d, lang, n - 1), RowOutcome(d, lang, n - 1))
  }

  /** The first exception ends the parse. */
  lemma {:induction false} ParsedFailureStays(d: TessData, lang: string, i: nat, n: nat)
    requires i <= n <= |d.text| && ParsedUpTo(d, lang, i).Failure?
    ensures ParsedUpTo(d, lang, n) == ParsedUpTo(d, lang, i)
  {
    if i < n {
      ParsedFailureStays(d, lang, i, n - 1);
    }
  }

  /** The parse of one more row is one step after the parse so far. */
  lemma {:induction false} ParsedNext(d: TessData, lang: string, i: nat, out: seq<OCRResult>, row: Result<Option<OCRResult>>)
    requires i < |d.text| && ParsedUpTo(d, lang, i) == Success(out) && row == RowOutcome(d, lang, i)
    ensures ParsedUpTo(d, lang, i + 1) == ParseStep(Success(out), row)
    ensures row.Failure? ==> ParsedUpTo(d, lang, i + 1) == Failure(row.error)
    ensures row.Success? && row.value.None? ==> ParsedUpTo(d, lang, i + 1) == Success(out)
    ensures row.Success? && row.value.Some? ==> ParsedUpTo(d, lang, i + 1) == Success(out + [row.value.value])
  {
  }

  /** The body of the parsing loop for row `i`. */
  method ParseRow(d: TessData, lang: string, i: nat) returns (r: Result<Option<OCRResult>>)
    requires i < |d.text|
    ensures r == RowOutcome(d, lang, i)
  {
    var text := TextAt(d, i);
    if text.Failure? {
      return Failure(text.error);
    }
    if |text.value| == 0 || ConfAt(d, i) < 0.0 {
      return Success(None);
    }
    var row := RowResult(d, lang, i);
    if row.Failure? {
      return Failure(row.error);
    }
    return Success(Some(row.value));
  }

  /** `_parse_data_dict_to_results` */
  method ParseDataDict(d: TessData, lang: string) returns (r: Result<seq<OCRResult>>)
    ensures r == ParsedUpTo(d, lang, |d.text|)
  {
    var out: seq<OCRResult> := [];
    var i := 0;
    while i < |d.text|
      invariant 0 <= i <= |d.text|
      invariant ParsedUpTo(d, lang, i) == Success(out)
    {
      var row := ParseRow(d, lang, i);
      ParsedNext(d, lang, i, out, row);
      if row.Failure? {
        ParsedFailureStays(d, lang, i + 1, |d.text|);
        return Failure(row.error);
      }
      if row.value.Some? {
        out := out + [row.value.value];
      }
      i := i + 1;
    }
    return Success(out);
  }

  /** The indices below `n` of the kept rows, ascending. */
  function KeptIndices(d: TessData, n: nat): (ks: seq<nat>)
    requires n <= |d.text|
    ensures |ks| <= n
    ensures forall j :: 0 <= j < |ks| ==> ks[j] < n
    ensures forall j, k :: 0 <= j < k < |ks| ==> ks[j] < ks[k]
  {
    if n == 0 then [] else KeptIndices(d, n - 1) + (if Kept(d, n - 1) then [n - 1] else [])
  }

  /** `KeptIndices` lists exactly the kept rows. */
  lemma {:induction false} KeptIndicesIff(d: TessData, n: nat, i: nat)
    requires i < n <= |d.text|
    ensures i in KeptIndices(d, n) <==> Kept(d, i)
  {
    if i < n - 1 {
      KeptIndicesIff(d, n - 1, i);
      assert n - 1 !in KeptIndices(d, n - 1);
    } else {
      assert i !in KeptIndices(d, n - 1);
    }
  }

  /** A successful parse has one result per kept row. */
  lemma {:induction false} ParsedCount(d: TessData, lang: string, n: nat)
    requires n <= |d.text| && ParsedUpTo(d, lang, n).Success?
    ensures |ParsedUpTo(d, lang, n).value| == |KeptIndices(d, n)|
  {
    if n > 0 {
      ParsedCount(d, lang, n - 1);
    }
  }

  /**
   * The `j`-th result of a successful parse is built from the `j`-th kept row:
   * its stripped text, which is not empty, its confidence, which is at least
   * 0, the row's bbox cells and page, and the given language.
   */
  lemma {:induction false} ParsedRow(d: TessData, lang: string, n: nat, j: nat)
    requires n <= |d.text| && ParsedUpTo(d, lang, n).Success?
    requires j < |ParsedUpTo(d, lang, n).value|
    ensures var out := ParsedUpTo(d, lang, n).value; var ks := KeptIndices(d, n);
      && j < |ks| && Kept(d, ks[j])
      && RowResult(d, lang, ks[j]) == Success(out[j])
      && out[j].text == TextAt(d, ks[j]).value && |out[j].text| > 0
      && out[j].confidence == ConfAt(d, ks[j]) && out[j].confidence >= 0.0
      && out[j].lang == VStr(lang)
  {
    ParsedCount(d, lang, n);
    ParsedCount(d, lang, n - 1);
    var prev := ParsedUpTo(d, lang, n - 1).value;
    var row := RowOutcome(d, lang, n - 1);
    if j < |prev| {
      ParsedRow(d, lang, n - 1, j);
      assert KeptIndices(d, n)[j] == KeptIndices(d, n - 1)[j];
    } else {
      assert row.Success? && row.value.Some?;
      assert KeptIndices(d, n)[j] == n - 1;
    }
  }

  /**
   * Well-formed Tesseract output (string or empty texts, every column present
   * and as long as the text column, a page list at least that long) always
   * parses.
   */
  lemma {:induction false} ParseWellFormed(d: TessData, lang: string, n: nat)
    requires n <= |d.text|
    requires forall i :: 0 <= i < |d.text| ==> d.text[i].VStr? || !Truthy(d.text[i])
    requires d.left.Some? && d.top.Some? && d.width.Some? && d.height.Some?
    requires |d.left.value| >= |d.text| && |d.top.value| >= |d.text|
    requires |d.width.value| >= |d.text| && |d.height.value| >= |d.text|
    requires d.pageNum.Some? && d.pageNum.value.VList? ==> |d.pageNum.value.items| >= |d.text|
    ensures ParsedUpTo(d, lang, n).Success?
  {
    if n > 0 {
      ParseWellFormed(d, lang, n - 1);
      RowWellFormed(d, lang, n - 1);
      ParsedNext(d, lang, n - 1, ParsedUpTo(d, lang, n - 1).value, RowOutcome(d, lang, n - 1));
    }
  }

  /** One row of well-formed output never raises. */
  lemma {:induction false} RowWellFormed(d: TessData, lang: string, i: nat)
    requires i < |d.text|
    requires d.text[i].VStr? || !Truthy(d.text[i])
    requires d.left.Some? && d.top.Some? && d.width.Some? && d.height.Some?
    requires |d.left.value| >= |d.text| && |d.top.value| >= |d.text|
    requires |d.width.value| >= |d.text| && |d.height.value| >= |d.text|
    requires d.pageNum.Some? && d.pageNum.value.VList? ==> |d.pageNum.value.items| >= |d.text|
    ensures RowOutcome(d, lang, i).Success?
  {
    assert TextAt(d, i).Success?;
    if Kept(d, i) {
      assert PageAt(d, i).Success?;
    }
  }

  // ------------------------------------------------------------ engine

  function Sum(xs: seq<real>): real
  {
    if xs == [] then 0.0 else Sum(xs[..|xs| - 1]) + xs[|xs| - 1]
  }

  /** `np.mean` of a non-empty list. */
  function Mean(xs: seq<real>): real
    requires xs != []
  {
    Sum(xs) / |xs| as real
  }

  lemma {:induction false} SumBounds(xs: seq<real>, lo: real, hi: real)
    requires forall i :: 0 <= i < |xs| ==> lo <= xs[i] <= hi
    ensures |xs| as real * lo <= Sum(xs) <= |xs| as real * hi
  {
    if xs != [] {
      SumBounds(xs[..|xs| - 1], lo, hi);
    }
  }

  /** The mean lies between the least and the greatest value. */
  lemma MeanBounds(xs: seq<real>, lo: real, hi: real)
    requires xs != [] && forall i :: 0 <= i < |xs| ==> lo <= xs[i] <= hi
    ensures lo <= Mean(xs) <= hi
  {
    SumBounds(xs, lo, hi);
    QuotientBounds(Sum(xs), |xs| as real, lo, hi);
  }

  /** A total between `n * lo` and `n * hi`, divided by `n`, lies between `lo` and `hi`. */
  lemma QuotientBounds(s: real, n: real, lo: real, hi: real)
    requires n > 0.0 && n * lo <= s <= n * hi
    ensures lo <= s / n <= hi
  {
    assert (s / n) * n == s;
  }

  function Confidences(rs: seq<OCRResult>): (cs: seq<real>)
    ensures |cs| == |rs| && forall i :: 0 <= i < |rs| ==> cs[i] == rs[i].confidence
  {
    seq(|rs|, i requires 0 <= i < |rs| => rs[i].confidence)
  }

  /**
   * An OCR engine: its language code (`None` when the subclass does not define
   * `lang_code`) and the results of the last `process` call (`None` before the
   * first one, when the attribute does not exist yet).
   */
  class Engine {
    const langCode: Option<string>
    var lastResults: Option<seq<OCRResult>>

    constructor(langCode: Option<string>)
      ensures this.langCode == langCode && lastResults.None?
    {
      this.langCode := langCode;
      lastResults := None;
    }

    /** `get_confidence`: the mean confidence of the last results, 0.0 when there are none. */
    function Confidence(): (c: real)
      reads this
      ensures lastResults.None? || lastResults.value == [] ==> c == 0.0
      ensures lastResults.Some? && lastResults.value != [] ==>
        (exists i :: 0 <= i < |lastResults.value| && lastResults.value[i].confidence <= c) &&
        (exists i :: 0 <= i < |lastResults.value| && c <= lastResults.value[i].confidence)
    {
      if lastResults.None? || lastResults.value == [] then 0.0
      else
        var cs := Confidences(lastResults.value);
        MeanWithin(cs);
        Mean(cs)
    }

    /** `process`: parse Tesseract's output for this engine's language and keep it. */
    method Process(data: TessData) returns (r: Result<seq<OCRResult>>)
      modifies this
      ensures langCode.None? ==> r.Failure? && r.error.NotImplementedError? && lastResults == old(lastResults)
      ensures langCode.Some? ==> r == ParsedUpTo(data, langCode.value, |data.text|)
      ensures r.Success? ==> lastResults == Some(r.value)
      ensures r.Failure? ==> lastResults == old(lastResults)
    {
      if langCode.None? {
        return Failure(NotImplementedError("Subclass must define lang_code property"));
      }
      r := ParseDataDict(data, langCode.value);
      if r.Success? {
        lastResults := Some(r.value);
      }
    }
  }

  /** The mean is attained from below and from above by some element. */
  lemma MeanWithin(xs: seq<real>)
    requires xs != []
    ensures exists i :: 0 <= i < |xs| && xs[i] <= Mean(xs)
    ensures exists i :: 0 <= i < |xs| && Mean(xs) <= xs[i]
  {
    var lo := MinOf(xs);
    var hi := MaxOf(xs);
    MeanBounds(xs, xs[lo], xs[hi]);
  }

  function MinOf(xs: seq<real>): (k: nat)
    requires xs != []
    ensures k < |xs| && forall i :: 0 <= i < |xs| ==> xs[k] <= xs[i]
  {
    if |xs| == 1 then 0
    else
      var k := MinOf(xs[..|xs| - 1]);
      if xs[|xs| - 1] < xs[k] then |xs| - 1 else k
  }

  function MaxOf(xs: seq<real>): (k: nat)
    requires xs != []
    ensures k < |xs| && forall i :: 0 <= i < |xs| ==> xs[i] <= xs[k]
  {
    if |xs| == 1 then 0
    else
      var k := MaxOf(xs[..|xs| - 1]);
      if xs[|xs| - 1] > xs[k] then |xs| - 1 else k
  }

  /** After a successful `process`, the engine's confidence is at least 0. */
  lemma ConfidenceAfterParse(d: TessData, lang: string)
    requires ParsedUpTo(d, lang, |d.text|).Success?
    ensures var rs := ParsedUpTo(d, lang, |d.text|).value;
      rs != [] ==> Mean(Confidences(rs)) >= 0.0
  {
    var rs := ParsedUpTo(d, lang, |d.text|).value;
    if rs != [] {
      var cs := Confidences(rs);
      forall j | 0 <= j < |cs| ensures 0.0 <= cs[j] {
        ParsedRow(d, lang, |d.text|, j);
      }
      MeanBounds(cs, 0.0, cs[MaxOf(cs)]);
    }
  }
}
