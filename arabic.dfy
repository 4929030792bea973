/**
 * The Arabic engine (`ArabicOCR`): its Tesseract configuration string, the
 * whitespace branch of its text clean-up, and the two-pass recognition of a
 * document. Tesseract itself is a parameter: a function from the pass (its
 * configuration and the scale of the image it reads) to the data dictionary
 * `image_to_data` returns, or to the error it raises. Image pre-processing
 * and the resize are pixel work and are not modelled; only whether the
 * resize succeeded is.
 */
module ArabicEngine {
  import opened Outcomes
  import opened Chars
  import opened PyValues
  import opened OcrBase
  import TE = TemplateExtraction

  /** The page segmentation mode of the first pass, and the default of `_tess_config_ar`. */
  const DefaultPsm: int := 6
  /** The page segmentation mode of the retry: one line of text. */
  const RetryPsm: int := 7
  /** The factor by which the retry enlarges the image. */
  const RetryScale: real := 1.3

  /** The option whose value lists the characters Tesseract must not output. */
  const BlacklistOption: string := "tessedit_char_blacklist="

  /** The options before the blacklist: LSTM engine, interword spaces kept. */
  const EngineOptions: string := " --oem 1 -c preserve_interword_spaces=1 -c "

  /** Everything after the segmentation mode's value. */
  const ArabicTail: string := EngineOptions + BlacklistOption + AsciiLetters

  /** `_tess_config_ar(psm)`. */
  function TessConfigAr(psm: int): string {
    "--psm " + IntToDecimal(psm) + ArabicTail
  }

  /**
   * The configuration starts with the segmentation mode, written as a decimal
   * that reads back as `psm` and is followed by a space.
   */
  lemma PsmReadsBack(psm: int)
    ensures var r := TessConfigAr(psm);
      var d := IntToDecimal(psm);
      && StartsWith(r, "--psm ")
      && |r| > 6 + |d| && r[6..6 + |d|] == d && r[6 + |d|] == ' '
      && ParseIntText(d) == Some(psm)
  {
    ParseIntRoundTrip(psm);
    var r := TessConfigAr(psm);
    assert r[6 + |IntToDecimal(psm)|] == ArabicTail[0] == EngineOptions[0];
  }

  /** Without an argument the configuration asks for segmentation mode 6. */
  lemma DefaultConfig()
    ensures IntToDecimal(DefaultPsm) == "6"
    ensures TessConfigAr(DefaultPsm) == "--psm 6" + ArabicTail
  {
    var d := IntToDecimal(DefaultPsm);
    assert d == "6" by { assert NatToDecimal(6) == "6"; }
    assert "--psm " + d == "--psm 6";
  }

  /** A text ending with `o + l`, split before `l`. */
  lemma SplitLast(p: string, e: string, o: string, l: string)
    ensures var r := p + (e + o + l);
      && |r| >= |l|
      && r[|r| - |l|..] == l
      && EndsWith(r[..|r| - |l|], o)
  {
    var r := p + (e + o + l);
    assert r == (p + e + o) + l;
    assert r[..|r| - |l|] == (p + e) + o;
  }

  /**
   * The configuration ends with the blacklist option, whose value is the 52
   * characters of `AsciiLetters` (every ASCII letter once and nothing else, by
   * `Chars.AsciiLettersExact`).
   */
  lemma BlacklistExact(psm: int)
    ensures var r := TessConfigAr(psm);
      && |r| > 52
      && EndsWith(r[..|r| - 52], BlacklistOption)
      && r[|r| - 52..] == AsciiLetters
  {
    AsciiLettersExact();
    SplitLast("--psm " + IntToDecimal(psm), EngineOptions, BlacklistOption, AsciiLetters);
  }

  /**
   * `postprocess_text`. Whitespace-only text comes back unchanged. For any
   * other text the Morocco-specific phrase table is read, but the assignment
   * that would create it sits after the `return` of `_tess_config_ar` and is
   * never executed, so the attribute is missing and the lookup raises. The
   * reshaping and bidi reordering before it are taken not to raise.
   */
  function Postprocess(text: string): Result<string> {
    if Strip(text) == [] then Success(text) else Failure(AttributeError("common_phrases"))
  }

  /**
   * The clean-up succeeds exactly on whitespace-only text, and then returns it
   * unchanged; any other text raises AttributeError.
   */
  lemma PostprocessIff(text: string)
    ensures Postprocess(text).Success? <==> AllSpace(text)
    ensures Postprocess(text).Success? ==> Postprocess(text).value == text
    ensures Postprocess(text).Failure? ==> Postprocess(text).error.AttributeError?
  {
    StripEmptyIff(text);
  }

  /** One call of `image_to_data`: the configuration and the image's scale. */
  datatype Pass = Pass(config: string, scale: real)

  const FirstPass: Pass := Pass(TessConfigAr(DefaultPsm), 1.0)

  /** The retry reads the enlarged image, or the original one when the resize raised. */
  function RetryPass(resized: bool): Pass {
    Pass(TessConfigAr(RetryPsm), if resized then RetryScale else 1.0)
  }

  const Unsupported: Error := RuntimeError("Arabic language support not installed in Tesseract")

  /** `_parse_data_dict_to_results(d, "ara")`. */
  function ParseArabic(d: TessData): Result<seq<OCRResult>> {
    ParsedUpTo(d, "ara", |d.text|)
  }

  /** One pass: Tesseract, then the parse of its data. */
  function RunPass(tesseract: Pass -> Result<TessData>, p: Pass): Result<seq<OCRResult>> {
    match tesseract(p)
    case Failure(e) => Failure(e)
    case Success(d) => ParseArabic(d)
  }

  /**
   * `process_document`: `supported` is whether Tesseract has the "ara"
   * language, `resized` whether the up-scaling succeeded.
   */
  function ProcessDocument(supported: bool, resized: bool, tesseract: Pass -> Result<TessData>): Result<seq<OCRResult>> {
    if !supported then Failure(Unsupported)
    else
      match RunPass(tesseract, FirstPass)
      case Failure(e) => Failure(e)
      case Success(results) =>
        if results != [] then Success(results) else RunPass(tesseract, RetryPass(resized))
  }

  /** Without Arabic support nothing is recognised and RuntimeError is raised. */
  lemma UnsupportedRaises(resized: bool, tesseract: Pass -> Result<TessData>)
    ensures ProcessDocument(false, resized, tesseract) == Failure(Unsupported)
    ensures Unsupported.RuntimeError?
  {
  }

  /**
   * With Arabic support the outcome is the first pass's whenever that pass
   * raises or finds something, and the retry's (segmentation mode 7, the
   * image enlarged 1.3 times if it could be) when the first found nothing.
   */
  lemma PassesUsed(resized: bool, tesseract: Pass -> Result<TessData>)
    ensures var first := RunPass(tesseract, FirstPass);
      && (first.Failure? || first.value != [] ==> ProcessDocument(true, resized, tesseract) == first)
      && (first == Success([]) ==> ProcessDocument(true, resized, tesseract) == RunPass(tesseract, RetryPass(resized)))
    ensures RetryPass(resized).config == "--psm 7" + ArabicTail
    ensures RetryPass(resized).scale == (if resized then 1.3 else 1.0)
  {
    RetryPassShape(resized);
  }

  lemma RetryPassShape(resized: bool)
    ensures RetryPass(resized).config == "--psm 7" + ArabicTail
    ensures RetryPass(resized).scale == (if resized then 1.3 else 1.0)
  {
    var d := IntToDecimal(RetryPsm);
    assert d == "7" by { assert NatToDecimal(7) == "7"; }
    assert "--psm " + d == "--psm 7";
  }

  /**
   * The retry runs only when the first pass found nothing: two Tesseracts
   * that agree on the first pass, when it finds something, give the same
   * outcome whatever they would answer on the retry.
   */
  lemma RetryOnlyWhenEmpty(resized: bool, t1: Pass -> Result<TessData>, t2: Pass -> Result<TessData>)
    requires t1(FirstPass) == t2(FirstPass)
    requires RunPass(t1, FirstPass) != Success([])
    ensures ProcessDocument(true, resized, t1) == ProcessDocument(true, resized, t2)
  {
  }

  /**
   * An empty list, never None, is what the document gives when neither pass
   * found anything, and only then.
   */
  lemma EmptyOnlyWhenBothEmpty(resized: bool, tesseract: Pass -> Result<TessData>)
    ensures ProcessDocument(true, resized, tesseract) == Success([]) <==>
      RunPass(tesseract, FirstPass) == Success([]) && RunPass(tesseract, RetryPass(resized)) == Success([])
  {
  }
}
