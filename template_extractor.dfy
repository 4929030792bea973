/**
 * The template-driven field extractor (src/templates/template_extractor.py).
 *
 * For every region of a template it computes the pixel box, the Tesseract
 * options and the engine, runs the engine on the crop, picks the best token,
 * derives a confidence, builds up to three candidate values, keeps the one
 * that normalizes best, and records the field and the raw token dicts.
 *
 * The image is represented by its height and width, the crop by its box and
 * scale, and an OCR engine by a name passed to an OCR function given as a
 * parameter. Loading the template file is not modelled: the extractor is
 * constructed from the parsed templates.
 */
module TemplateExtraction {
  import opened Outcomes
  import opened Chars
  import opened PyValues
  import opened Sorting
  import opened OcrBase
  import opened Validators

  // ----------------------------------------------------------- regions

  /**
   * One region of a template: its relative box, the Tesseract options, the
   * language and the scale. A coordinate is `None` only when its key is
   * missing. An option that is absent, None, or (for the string options)
   * empty is `None` or `""`.
   */
  datatype Region = Region(
    x: Option<real>, y: Option<real>, w: Option<real>, h: Option<real>,
    psm: Option<int>, oem: Option<int>, dpi: Option<real>,
    preserveSpaces: bool,
    whitelist: string, blacklist: string,
    lang: string,
    scale: Option<Value>)

  /** A pixel box: left, top, width, height. */
  datatype Box = Box(x: int, y: int, w: int, h: int)

  function MaxInt(a: int, b: int): int { if a >= b then a else b }

  function MinInt(a: int, b: int): int { if a <= b then a else b }

  /** The box clamped into an image of the given size from the four truncated products. */
  function ClampBox(H: int, W: int, x0: int, y0: int, w0: int, h0: int): Box
  {
    var x := MaxInt(0, MinInt(x0, W - 1));
    var y := MaxInt(0, MinInt(y0, H - 1));
    Box(x, y, MaxInt(1, MinInt(w0, W - x)), MaxInt(1, MinInt(h0, H - y)))
  }

  /**
   * `TemplateExtractor._abs_box`: a missing coordinate raises KeyError (x, y,
   * w, h in that order); otherwise each relative value is scaled, truncated
   * toward zero and clamped. In an image of at least one pixel the box is
   * non-empty and lies inside the image.
   */
  function AbsBox(H: int, W: int, rel: Region): (r: Result<Box>)
    ensures r.Failure? <==> rel.x.None? || rel.y.None? || rel.w.None? || rel.h.None?
    ensures r.Failure? ==> r.error.KeyError?
    ensures r.Success? && H >= 1 && W >= 1 ==>
      var b := r.value;
      && 0 <= b.x <= W - 1 && 0 <= b.y <= H - 1
      && 1 <= b.w <= W - b.x && 1 <= b.h <= H - b.y
  {
    if rel.x.None? then Failure(KeyError("x"))
    else if rel.y.None? then Failure(KeyError("y"))
    else if rel.w.None? then Failure(KeyError("w"))
    else if rel.h.None? then Failure(KeyError("h"))
    else
      Success(ClampBox(H, W, Trunc(Scaled(rel.x.value, W)), Trunc(Scaled(rel.y.value, H)),
                       Trunc(Scaled(rel.w.value, W)), Trunc(Scaled(rel.h.value, H))))
  }

  /** A relative coordinate times an image dimension. */
  function Scaled(v: real, n: int): real { v * n as real }

  /** Truncation and rounding down agree on non-negative values and are both at most 0 otherwise. */
  lemma FloorTrunc(r: real)
    ensures r >= 0.0 ==> r.Floor == Trunc(r)
    ensures r < 0.0 ==> r.Floor <= Trunc(r) <= 0
  {
  }

  /** Clamping forgets the difference between two inputs that agree or are both non-positive. */
  lemma ClampAgrees(H: int, W: int, x0: int, y0: int, w0: int, h0: int, x1: int, y1: int, w1: int, h1: int)
    requires x0 == x1 || (x0 <= 0 && x1 <= 0)
    requires y0 == y1 || (y0 <= 0 && y1 <= 0)
    requires w0 == w1 || (w0 <= 0 && w1 <= 0)
    requires h0 == h1 || (h0 <= 0 && h1 <= 0)
    requires H >= 1 && W >= 1
    ensures ClampBox(H, W, x0, y0, w0, h0) == ClampBox(H, W, x1, y1, w1, h1)
  {
  }

  /** Rounding down instead of truncating toward zero gives the same clamped box. */
  lemma AbsBoxFloor(H: int, W: int, rel: Region)
    requires H >= 1 && W >= 1
    requires rel.x.Some? && rel.y.Some? && rel.w.Some? && rel.h.Some?
    ensures AbsBox(H, W, rel) == Success(ClampBox(H, W,
      Scaled(rel.x.value, W).Floor, Scaled(rel.y.value, H).Floor,
      Scaled(rel.w.value, W).Floor, Scaled(rel.h.value, H).Floor))
  {
    var a, b, c, d := Scaled(rel.x.value, W), Scaled(rel.y.value, H), Scaled(rel.w.value, W), Scaled(rel.h.value, H);
    FloorTrunc(a);
    FloorTrunc(b);
    FloorTrunc(c);
    FloorTrunc(d);
    assert AbsBox(H, W, rel) == Success(ClampBox(H, W, Trunc(a), Trunc(b), Trunc(c), Trunc(d)));
    ClampAgrees(H, W, Trunc(a), Trunc(b), Trunc(c), Trunc(d), a.Floor, b.Floor, c.Floor, d.Floor);
  }

  // ---------------------------------------------------- Tesseract config

  /** The options added for an Arabic region, after any of the region's own. */
  function ArabicFlags(): seq<string>
  {
    ["--oem", "1", "-c", "preserve_interword_spaces=1", "-c", "tessedit_char_blacklist=" + AsciiLetters]
  }

  function PsmFlags(rel: Region): seq<string>
  {
    if rel.psm.Some? then ["--psm", IntToDecimal(rel.psm.value)] else []
  }

  function OemFlags(rel: Region): seq<string>
  {
    if rel.oem.Some? then ["--oem", IntToDecimal(rel.oem.value)] else []
  }

  function DpiFlags(rel: Region): seq<string>
  {
    if rel.dpi.Some? then ["-c", "user_defined_dpi=" + IntToDecimal(Trunc(rel.dpi.value))] else []
  }

  function SpaceFlags(rel: Region): seq<string>
  {
    if rel.preserveSpaces then ["-c", "preserve_interword_spaces=1"] else []
  }

  function WhitelistFlags(rel: Region): seq<string>
  {
    if rel.whitelist != "" then ["-c", "tessedit_char_whitelist=" + rel.whitelist] else []
  }

  function BlacklistFlags(rel: Region): seq<string>
  {
    if rel.blacklist != "" then ["-c", "tessedit_char_blacklist=" + rel.blacklist] else []
  }

  /** The options that come from the region itself, in the order they are added. */
  function OwnFlags(rel: Region): seq<string>
  {
    PsmFlags(rel) + OemFlags(rel) + DpiFlags(rel) + SpaceFlags(rel) + WhitelistFlags(rel) + BlacklistFlags(rel)
  }

  function LangFlags(rel: Region): seq<string>
  {
    if rel.lang == "arabic" then ArabicFlags() else []
  }

  /** The option list `_build_tess_config` builds, in its fixed order. */
  function TessFlags(rel: Region): seq<string>
  {
    OwnFlags(rel) + LangFlags(rel)
  }

  /** Concatenation regrouped. */
  lemma AppendAssoc<T>(a: seq<T>, b: seq<T>, c: seq<T>)
    ensures a + b + c == a + (b + c)
  {
  }

  /** `_build_tess_config` */
  method BuildTessConfig(rel: Region) returns (config: string)
    ensures config == Join(TessFlags(rel), " ")
  {
    var cfg: seq<string> := [];
    if rel.psm.Some? {
      cfg := cfg + ["--psm", IntToDecimal(rel.psm.value)];
    }
    ghost var step := cfg;
    assert step == PsmFlags(rel);
    if rel.oem.Some? {
      cfg := cfg + ["--oem", IntToDecimal(rel.oem.value)];
    }
    assert cfg == step + OemFlags(rel);
    step := cfg;
    if rel.dpi.Some? {
      cfg := cfg + ["-c", "user_defined_dpi=" + IntToDecimal(Trunc(rel.dpi.value))];
    }
    assert cfg == step + DpiFlags(rel);
    step := cfg;
    if rel.preserveSpaces {
      cfg := cfg + ["-c", "preserve_interword_spaces=1"];
    }
    assert cfg == step + SpaceFlags(rel);
    step := cfg;
    if rel.whitelist != "" {
      cfg := cfg + ["-c", "tessedit_char_whitelist=" + rel.whitelist];
    }
    assert cfg == step + WhitelistFlags(rel);
    step := cfg;
    if rel.blacklist != "" {
      cfg := cfg + ["-c", "tessedit_char_blacklist=" + rel.blacklist];
    }
    assert cfg == step + BlacklistFlags(rel);
    step := cfg;
    if rel.lang == "arabic" {
      cfg := cfg + ArabicFlags();
    }
    assert cfg == step + LangFlags(rel);
    config := Join(cfg, " ");
  }

  /** A region without options gets the empty configuration. */
  lemma TessConfigEmpty(rel: Region)
    requires rel.psm.None? && rel.oem.None? && rel.dpi.None? && !rel.preserveSpaces
    requires rel.whitelist == "" && rel.blacklist == "" && rel.lang != "arabic"
    ensures Join(TessFlags(rel), " ") == ""
  {
  }

  /** A page-segmentation mode comes first, as `--psm N`. */
  lemma TessConfigPsmFirst(rel: Region)
    requires rel.psm.Some?
    ensures StartsWith(Join(TessFlags(rel), " "), "--psm " + IntToDecimal(rel.psm.value))
  {
    var head := ["--psm", IntToDecimal(rel.psm.value)];
    var o, d, sp, w, b, l := OemFlags(rel), DpiFlags(rel), SpaceFlags(rel), WhitelistFlags(rel), BlacklistFlags(rel), LangFlags(rel);
    AppendAssoc(head, o, d);
    AppendAssoc(head, o + d, sp);
    AppendAssoc(head, o + d + sp, w);
    AppendAssoc(head, o + d + sp + w, b);
    AppendAssoc(head, o + d + sp + w + b, l);
    var tail := o + d + sp + w + b + l;
    assert TessFlags(rel) == head + tail;
    assert Join(head, " ") == "--psm " + IntToDecimal(rel.psm.value) by {
      assert head[..1] == ["--psm"];
    }
    JoinPrefix(head, tail, " ");
  }

  /** The Arabic options close the configuration, after any of the region's own. */
  lemma TessConfigArabic(rel: Region)
    requires rel.lang == "arabic"
    ensures EndsWith(Join(TessFlags(rel), " "), Join(ArabicFlags(), " "))
  {
    JoinSuffix(OwnFlags(rel), ArabicFlags(), " ");
  }

  /** Without the Arabic language no Arabic blacklist is added. */
  lemma TessConfigNotArabic(rel: Region)
    requires rel.lang != "arabic"
    ensures TessFlags(rel) == TessFlags(rel.(lang := "arabic"))[..|TessFlags(rel)|]
    ensures |TessFlags(rel.(lang := "arabic"))| == |TessFlags(rel)| + |ArabicFlags()|
  {
  }

  // ------------------------------------------------------------ scaling

  /** The factor `_apply_scale` reads: `float(scale)`, or 1.0 when absent or unreadable. */
  function ScaleFactor(rel: Region): real
  {
    if rel.scale.None? then 1.0
    else if ToFloat(rel.scale.value).Success? then ToFloat(rel.scale.value).value
    else 1.0
  }

  /** `_apply_scale` resizes the crop exactly when the factor is neither 0 nor 1. */
  predicate Resizes(rel: Region)
  {
    ScaleFactor(rel) != 0.0 && ScaleFactor(rel) != 1.0
  }

  /** The image an engine receives: the box of the page, resized by a factor or not. */
  datatype Crop = Crop(box: Box, factor: Option<real>)

  function CropOf(b: Box, rel: Region): (c: Crop)
    ensures c.box == b
    ensures c.factor.Some? <==> Resizes(rel)
    ensures c.factor.Some? ==> c.factor.value == ScaleFactor(rel)
  {
    Crop(b, if Resizes(rel) then Some(ScaleFactor(rel)) else None)
  }

  // ------------------------------------------------------------ routing

  /** The name is Arabic text or the region is the Arabic title. */
  predicate ArabicHeuristic(section: string, name: string)
  {
    (section == "title" && name == "ar") || HasArabicChar(name)
  }

  /** The engine key of a region. */
  function Route(section: string, name: string, lang: string): (key: string)
    ensures name == "receipt_no" ==> key == "receipt"
    ensures name != "receipt_no" && lang != "" ==> key == lang
    ensures name != "receipt_no" && lang == "" ==>
      (key == "arabic" <==> ArabicHeuristic(section, name)) && (key == "arabic" || key == "french")
  {
    if name == "receipt_no" then "receipt"
    else if lang != "" then lang
    else if ArabicHeuristic(section, name) then "arabic"
    else "french"
  }

  /**
   * `engines.get(key) or engines.get('hybrid')`, with a RuntimeError when
   * neither is available. Engines are named; the map holds only real engines.
   */
  function EngineFor(engines: map<string, string>, key: string): (r: Result<string>)
    ensures key in engines ==> r == Success(engines[key])
    ensures key !in engines && "hybrid" in engines ==> r == Success(engines["hybrid"])
    ensures r.Failure? <==> key !in engines && "hybrid" !in engines
    ensures r.Failure? ==> r.error.RuntimeError?
  {
    if key in engines then Success(engines[key])
    else if "hybrid" in engines then Success(engines["hybrid"])
    else Failure(RuntimeError("No OCR engine available for " + key))
  }

  // ------------------------------------------------------ engine output

  /**
   * One element of an engine's result list: a recognized result (it has
   * `to_dict`), another object with a `text` attribute (each other
   * attribute `None` when the object lacks it), a dict, or anything else,
   * represented by its `str`.
   */
  datatype Item =
    | Recognized(result: OCRResult)
    | Attrs(text: Value, confidence: Option<Value>, boundingBox: Option<Value>,
            language: Option<Value>, pageNumber: Option<Value>)
    | Mapping(dict: Dict)
    | Other(repr: string)

  /** The default box (0, 0, 1, 1). */
  const UnitBox: seq<Value> := [VInt(0), VInt(0), VInt(1), VInt(1)]

  /** `getattr(r, name, default)`. */
  function AttrOr(a: Option<Value>, default: Value): Value
  {
    if a.Some? then a.value else default
  }

  /** A box value unpacked into four parts: a list or tuple of four, else (0, 0, 1, 1). */
  function FourOrUnit(v: Value): (r: seq<Value>)
    ensures |r| == 4
  {
    if (v.VList? || v.VTuple?) && |v.items| == 4 then v.items else UnitBox
  }

  const AttrKeys: set<string> := {"text", "confidence", "bbox", "language", "page_number"}

  /** `_result_to_dict`: the token dict of one engine result. */
  function ResultToDict(it: Item): (r: Result<Dict>)
    ensures it.Recognized? ==> r == Success(ToDict(it.result))
    ensures it.Mapping? ==> r == Success(it.dict)
    ensures it.Other? ==> r == Success(map["text" := VStr(it.repr)])
    ensures r.Failure? ==> it.Attrs?
    ensures it.Attrs? && r.Success? ==>
      && r.value.Keys == AttrKeys
      && r.value["text"] == it.text
      && r.value["language"] == AttrOr(it.language, VStr(""))
      && r.value["confidence"].VNum?
      && ToFloat(AttrOr(it.confidence, VNum(0.0))) == Success(r.value["confidence"].r)
      && r.value["bbox"].VList? && |r.value["bbox"].items| == 4
      && (forall i :: 0 <= i < 4 ==> r.value["bbox"].items[i].VInt?)
      && (forall i :: 0 <= i < 4 ==>
            ToInt(FourOrUnit(AttrOr(it.boundingBox, VTuple(UnitBox)))[i])
              == Success(r.value["bbox"].items[i].i))
      && r.value["page_number"].VInt?
      && ToInt(AttrOr(it.pageNumber, VInt(1))) == Success(r.value["page_number"].i)
  {
    match it
    case Recognized(res) => Success(ToDict(res))
    case Attrs(text, confidence, boundingBox, language, pageNumber) =>
      var xywh := FourOrUnit(AttrOr(boundingBox, VTuple(UnitBox)));
      var c := ToFloat(AttrOr(confidence, VNum(0.0)));
      if c.Failure? then Failure(c.error) else
      var x := ToInt(xywh[0]);
      if x.Failure? then Failure(x.error) else
      var y := ToInt(xywh[1]);
      if y.Failure? then Failure(y.error) else
      var w := ToInt(xywh[2]);
      if w.Failure? then Failure(w.error) else
      var h := ToInt(xywh[3]);
      if h.Failure? then Failure(h.error) else
      var page := ToInt(AttrOr(pageNumber, VInt(1)));
      if page.Failure? then Failure(page.error) else
      Success(map["text" := text, "confidence" := VNum(c.value),
                  "bbox" := VList([VInt(x.value), VInt(y.value), VInt(w.value), VInt(h.value)]),
                  "language" := AttrOr(language, VStr("")),
                  "page_number" := VInt(page.value)])
    case Mapping(d) => Success(d)
    case Other(s) => Success(map["text" := VStr(s)])
  }

  /** What the scan keeps of one token dict: its text, confidence and area. */
  datatype Token = Token(text: Value, conf: real, area: int)

  /** The text, confidence and box area the scan reads from a token dict. */
  function TokenOf(rd: Dict): (r: Result<Token>)
    ensures r.Success? ==> r.value.area >= 1 && r.value.text == Get(rd, "text", VStr(""))
    ensures r.Success? ==> ToFloat(Get(rd, "confidence", VNum(0.0))) == Success(r.value.conf)
    ensures r.Failure? <==>
      ToFloat(Get(rd, "confidence", VNum(0.0))).Failure?
      || ToInt(FourOrUnit(Get(rd, "bbox", VTuple(UnitBox)))[2]).Failure?
      || ToInt(FourOrUnit(Get(rd, "bbox", VTuple(UnitBox)))[3]).Failure?
  {
    var text := Get(rd, "text", VStr(""));
    var conf := ToFloat(Get(rd, "confidence", VNum(0.0)));
    if conf.Failure? then Failure(conf.error) else
    var b := FourOrUnit(Get(rd, "bbox", VTuple(UnitBox)));
    var w := ToInt(b[2]);
    if w.Failure? then Failure(w.error) else
    var h := ToInt(b[3]);
    if h.Failure? then Failure(h.error) else
    Success(Token(text, conf.value, MaxInt(1, w.value * h.value)))
  }

  /** A recognized result's token is its own text and confidence. */
  lemma RecognizedToken(res: OCRResult)
    requires res.bbox.None? || |res.bbox.value| != 4
    ensures TokenOf(ToDict(res)) == Success(Token(VStr(res.text), res.confidence, 1))
  {
    var d := ToDict(res);
    assert FourOrUnit(d["bbox"]) == UnitBox;
  }

  // ------------------------------------------------------------ scanning

  /** The token dicts and the tokens read from the first items. */
  datatype Scan = Scan(dicts: seq<Dict>, tokens: seq<Token>)

  /** One item read by the scan: its token dict, then its token. */
  function ReadItem(it: Item): Result<(Dict, Token)>
  {
    var rd := ResultToDict(it);
    if rd.Failure? then Failure(rd.error)
    else
      var tok := TokenOf(rd.value);
      if tok.Failure? then Failure(tok.error) else Success((rd.value, tok.value))
  }

  function ScanStep(prev: Result<Scan>, read: Result<(Dict, Token)>): Result<Scan>
  {
    if prev.Failure? then prev
    else if read.Failure? then Failure(read.error)
    else Success(Scan(prev.value.dicts + [read.value.0], prev.value.tokens + [read.value.1]))
  }

  /** The scan over the read outcomes of the items, in order. */
  function ScanOf(outs: seq<Result<(Dict, Token)>>): Result<Scan>
  {
    if outs == [] then Success(Scan([], [])) else ScanStep(ScanOf(outs[..|outs| - 1]), outs[|outs| - 1])
  }

  /** The read outcome of every item. */
  function Reads(items: seq<Item>): (outs: seq<Result<(Dict, Token)>>)
    ensures |outs| == |items|
  {
    seq(|items|, i requires 0 <= i < |items| => ReadItem(items[i]))
  }

  /** Once the scan has failed, the rest of the items change nothing. */
  lemma {:induction false} ScanFailureStays(outs: seq<Result<(Dict, Token)>>, i: nat)
    requires i <= |outs| && ScanOf(outs[..i]).Failure?
    ensures ScanOf(outs) == ScanOf(outs[..i])
  {
    if i < |outs| {
      var init := outs[..|outs| - 1];
      assert init[..i] == outs[..i];
      ScanFailureStays(init, i);
    } else {
      assert outs[..i] == outs;
    }
  }

  /**
   * The scan succeeds exactly when every item reads, and then holds one
   * dict and one token per item, in order.
   */
  lemma {:induction false} ScanShape(outs: seq<Result<(Dict, Token)>>)
    ensures ScanOf(outs).Success? <==> forall i :: 0 <= i < |outs| ==> outs[i].Success?
    ensures ScanOf(outs).Success? ==>
      var s := ScanOf(outs).value;
      && |s.dicts| == |outs| && |s.tokens| == |outs|
      && (forall i :: 0 <= i < |outs| ==> (s.dicts[i], s.tokens[i]) == outs[i].value)
  {
    if outs != [] {
      var init := outs[..|outs| - 1];
      ScanShape(init);
      assert forall i :: 0 <= i < |init| ==> init[i] == outs[i];
    }
  }

  /** A token dict is the item's own dict, and its token is read from it. */
  lemma ReadItemParts(it: Item)
    ensures ReadItem(it).Success? <==> ResultToDict(it).Success? && TokenOf(ResultToDict(it).value).Success?
    ensures ReadItem(it).Success? ==>
      ReadItem(it).value == (ResultToDict(it).value, TokenOf(ResultToDict(it).value).value)
  {
  }

  // ----------------------------------------------------------- best token

  /** The running best token: its text, confidence and area. */
  datatype Best = Best(text: Value, conf: real, area: int)

  const NoBest := Best(VStr(""), 0.0, 1)

  /** Confidence weighted by area, the quantity the scan maximizes. */
  function Score(conf: real, area: int): real { conf * area as real }

  function TokenScore(t: Token): real { Score(t.conf, t.area) }

  /** One step of the scan: a token replaces the best one when it scores strictly higher. */
  function Better(b: Best, t: Token): Best
  {
    if TokenScore(t) > Score(b.conf, b.area) then Best(t.text, t.conf, t.area) else b
  }

  /** The best token after the scan of `ts`. */
  function BestOf(ts: seq<Token>): Best
  {
    if ts == [] then NoBest else Better(BestOf(ts[..|ts| - 1]), ts[|ts| - 1])
  }

  function AsBest(t: Token): Best { Best(t.text, t.conf, t.area) }

  /**
   * The best token is the earliest token of maximal positive score, or the
   * default when no token scores above zero.
   */
  lemma {:induction false} BestOfMaximal(ts: seq<Token>)
    ensures
      || (BestOf(ts) == NoBest && forall i :: 0 <= i < |ts| ==> TokenScore(ts[i]) <= 0.0)
      || exists k :: 0 <= k < |ts| && BestOf(ts) == AsBest(ts[k]) && TokenScore(ts[k]) > 0.0
           && (forall i :: 0 <= i < k ==> TokenScore(ts[i]) < TokenScore(ts[k]))
           && (forall i :: k < i < |ts| ==> TokenScore(ts[i]) <= TokenScore(ts[k]))
  {
    BestChosen(ts);
    if !(BestOf(ts) == NoBest && forall i :: 0 <= i < |ts| ==> TokenScore(ts[i]) <= 0.0) {
      var k :| MaximalAt(ts, k) && BestOf(ts) == AsBest(ts[k]);
    }
  }

  /** `ts[k]` scores above zero, above every token before it and at least as high as every token after it. */
  ghost predicate MaximalAt(ts: seq<Token>, k: int)
  {
    && 0 <= k < |ts| && TokenScore(ts[k]) > 0.0
    && (forall i :: 0 <= i < k ==> TokenScore(ts[i]) < TokenScore(ts[k]))
    && (forall i :: k < i < |ts| ==> TokenScore(ts[i]) <= TokenScore(ts[k]))
  }

  /** `b` is what the scan of `ts` should choose. */
  ghost predicate Chosen(ts: seq<Token>, b: Best)
  {
    || (b == NoBest && forall i :: 0 <= i < |ts| ==> TokenScore(ts[i]) <= 0.0)
    || exists k :: MaximalAt(ts, k) && b == AsBest(ts[k])
  }

  lemma {:induction false} BestChosen(ts: seq<Token>)
    ensures Chosen(ts, BestOf(ts))
  {
    if ts != [] {
      var init, t := ts[..|ts| - 1], ts[|ts| - 1];
      assert ts == init + [t];
      BestChosen(init);
      var b := BestOf(init);
      if TokenScore(t) > Score(b.conf, b.area) {
        BestReplaced(init, t, b);
        assert BestOf(ts) == AsBest(ts[|init|]);
      } else {
        BestKept(init, t, b);
      }
    }
  }

  /** A token scoring above the best so far is maximal in the longer sequence. */
  lemma {:induction false} BestReplaced(init: seq<Token>, t: Token, b: Best)
    requires Chosen(init, b) && TokenScore(t) > Score(b.conf, b.area)
    ensures MaximalAt(init + [t], |init|)
  {
    var ts := init + [t];
    if b == NoBest && forall i :: 0 <= i < |init| ==> TokenScore(init[i]) <= 0.0 {
      forall i | 0 <= i < |init| ensures TokenScore(ts[i]) < TokenScore(t) {
        assert ts[i] == init[i];
      }
    } else {
      var k :| MaximalAt(init, k) && b == AsBest(init[k]);
      assert Score(b.conf, b.area) == TokenScore(init[k]);
      forall i | 0 <= i < |init| ensures TokenScore(ts[i]) < TokenScore(t) {
        assert ts[i] == init[i];
      }
    }
  }

  /** A token scoring no higher than the best so far leaves the choice as it was. */
  lemma {:induction false} BestKept(init: seq<Token>, t: Token, b: Best)
    requires Chosen(init, b) && TokenScore(t) <= Score(b.conf, b.area)
    ensures Chosen(init + [t], b)
  {
    var ts := init + [t];
    if b == NoBest && forall i :: 0 <= i < |init| ==> TokenScore(init[i]) <= 0.0 {
      assert Score(b.conf, b.area) == 0.0;
      forall i | 0 <= i < |ts| ensures TokenScore(ts[i]) <= 0.0 {
        if i < |init| { assert ts[i] == init[i]; }
      }
    } else {
      var k :| MaximalAt(init, k) && b == AsBest(init[k]);
      assert Score(b.conf, b.area) == TokenScore(init[k]);
      assert ts[k] == init[k];
      forall i | 0 <= i < k ensures TokenScore(ts[i]) < TokenScore(ts[k]) {
        assert ts[i] == init[i];
      }
      forall i | k < i < |ts| ensures TokenScore(ts[i]) <= TokenScore(ts[k]) {
        if i < |init| { assert ts[i] == init[i]; }
      }
      assert MaximalAt(ts, k);
    }
  }

  lemma PositiveFactor(c: real, a: int)
    requires a >= 1 && Score(c, a) > 0.0
    ensures c > 0.0
  {
  }

  /** With areas of at least one, the best token has a positive confidence unless none was chosen. */
  lemma {:induction false} BestOfPositive(ts: seq<Token>)
    requires forall i :: 0 <= i < |ts| ==> ts[i].area >= 1
    ensures BestOf(ts).area >= 1
    ensures BestOf(ts) == NoBest || BestOf(ts).conf > 0.0
  {
    if ts != [] {
      var init, t := ts[..|ts| - 1], ts[|ts| - 1];
      assert forall i :: 0 <= i < |init| ==> init[i] == ts[i];
      BestOfPositive(init);
      var b := BestOf(init);
      if TokenScore(t) > Score(b.conf, b.area) {
        if b == NoBest {
          assert Score(b.conf, b.area) == 0.0;
        } else {
          assert Score(b.conf, b.area) > 0.0 by {
            assert b.conf * b.area as real > 0.0 * b.area as real;
          }
        }
        PositiveFactor(t.conf, t.area);
      }
    }
  }

  /** The texts the scan chose from: after a scan every token text is the text of a token dict. */
  lemma {:induction false} BestTextFrom(ts: seq<Token>)
    ensures BestOf(ts).text == VStr("") || exists i :: 0 <= i < |ts| && BestOf(ts).text == ts[i].text
  {
    if ts != [] {
      var init := ts[..|ts| - 1];
      BestTextFrom(init);
      if BestOf(ts) != BestOf(init) {
        assert BestOf(ts).text == ts[|ts| - 1].text;
      } else if BestOf(init).text != VStr("") {
        var i :| 0 <= i < |init| && BestOf(init).text == init[i].text;
        assert ts[i] == init[i];
      }
    }
  }

  /** The token dicts and the best token of a scan, or the error that stopped it. */
  function Scanned(items: seq<Item>): Result<(seq<Dict>, Best)>
  {
    var s := ScanOf(Reads(items));
    if s.Failure? then Failure(s.error) else Success((s.value.dicts, BestOf(s.value.tokens)))
  }

  /** The scan loop: the token dicts of all results and the best-scoring token. */
  method ScanResults(items: seq<Item>) returns (r: Result<(seq<Dict>, Best)>)
    ensures r == Scanned(items)
  {
    ghost var outs := Reads(items);
    var bestText, bestConf, bestArea := VStr(""), 0.0, 1;
    var safeRaw: seq<Dict> := [];
    ghost var tokens: seq<Token> := [];
    var i := 0;
    while i < |items|
      invariant 0 <= i <= |items|
      invariant ScanOf(outs[..i]) == Success(Scan(safeRaw, tokens))
      invariant Best(bestText, bestConf, bestArea) == BestOf(tokens)
    {
      assert outs[..i + 1][..i] == outs[..i];
      var read := ReadItem(items[i]);
      if read.Failure? {
        ScanFailureStays(outs, i + 1);
        return Failure(read.error);
      }
      var (rd, token) := read.value;
      safeRaw := safeRaw + [rd];
      ghost var prevTokens := tokens;
      tokens := tokens + [token];
      assert tokens[..|tokens| - 1] == prevTokens;
      if Score(token.conf, token.area) > Score(bestConf, bestArea) {
        bestText, bestConf, bestArea := token.text, token.conf, token.area;
      }
      i := i + 1;
    }
    assert outs[..|items|] == outs;
    return Success((safeRaw, Best(bestText, bestConf, bestArea)));
  }

  // ------------------------------------------------------------ digit-ish

  predicate DigitishChar(c: char) { IsDigit(c) || c == '/' || c == '-' }

  /** A string holding a digit, a slash or a dash. */
  predicate HasDigitish(s: string) { exists i :: 0 <= i < |s| && DigitishChar(s[i]) }

  predicate HasDigit(s: string) { exists i :: 0 <= i < |s| && IsDigit(s[i]) }

  /** `str.isdigit()`: non-empty and all digits. */
  predicate StrIsDigit(s: string) { |s| > 0 && AllDigits(s) }

  /**
   * `any(ch.isdigit() for ch in items)` over the items of a list or tuple:
   * true at the first item that is a digit string, and an AttributeError
   * at the first item before that which is not a string.
   */
  function AnyIsDigit(items: seq<Value>): (r: Result<bool>)
    ensures r == Success(true) <==>
      exists k :: 0 <= k < |items| && items[k].VStr? && StrIsDigit(items[k].s)
        && forall j :: 0 <= j < k ==> items[j].VStr?
    ensures r == Success(false) <==> forall j :: 0 <= j < |items| ==> items[j].VStr? && !StrIsDigit(items[j].s)
    ensures r.Failure? ==> r.error.AttributeError?
  {
    if items == [] then Success(false)
    else if !items[0].VStr? then Failure(AttributeError("isdigit"))
    else if StrIsDigit(items[0].s) then Success(true)
    else
      var r := AnyIsDigit(items[1..]);
      assert forall j :: 1 <= j < |items| ==> items[j] == items[1..][j - 1];
      assert r == Success(true) ==>
        exists k :: 0 <= k < |items| && items[k].VStr? && StrIsDigit(items[k].s)
          && forall j :: 0 <= j < k ==> items[j].VStr?
      by {
        if r == Success(true) {
          var k :| 0 <= k < |items| - 1 && items[1..][k].VStr? && StrIsDigit(items[1..][k].s)
            && forall j :: 0 <= j < k ==> items[1..][j].VStr?;
          assert items[k + 1] == items[1..][k];
        }
      }
      r
  }

  /**
   * Whether a token text is digit-ish: `any(ch.isdigit() for ch in t) or
   * "/" in t or "-" in t`, on a string or a list or tuple of strings.
   */
  function Digitish(t: Value): Result<bool>
  {
    match t
    case VStr(s) => Success(HasDigit(s) || '/' in s || '-' in s)
    case VList(items) => ListDigitish(items)
    case VTuple(items) => ListDigitish(items)
    case _ => Failure(TypeError("object is not iterable"))
  }

  /**
   * A string is digit-ish exactly when it holds a digit, a slash or a dash;
   * a list or tuple raises what its first non-string item before any digit
   * string raises, and is otherwise digit-ish when it holds a digit string
   * or the items "/" or "-"; any other value is not iterable.
   */
  lemma DigitishSpec(t: Value)
    ensures t.VStr? ==> Digitish(t) == Success(HasDigitish(t.s))
    ensures (t.VList? || t.VTuple?) ==>
      Digitish(t) == (if AnyIsDigit(t.items).Failure? then Failure(AnyIsDigit(t.items).error)
            else Success(AnyIsDigit(t.items).value || VStr("/") in t.items || VStr("-") in t.items))
    ensures Digitish(t).Failure? <==> !t.VStr? && ((!t.VList? && !t.VTuple?) || AnyIsDigit(t.items).Failure?)
    ensures Digitish(t).Failure? ==> Digitish(t).error.TypeError? || Digitish(t).error.AttributeError?
  {
    if t.VStr? {
      var s := t.s;
      if HasDigitish(s) {
        var i :| 0 <= i < |s| && DigitishChar(s[i]);
        if !IsDigit(s[i]) { assert s[i] in s; }
      }
    }
  }

  function ListDigitish(items: seq<Value>): Result<bool>
  {
    var a := AnyIsDigit(items);
    if a.Failure? then Failure(a.error) else Success(a.value || VStr("/") in items || VStr("-") in items)
  }

  /** The text a token dict gives the loops: `rd.get("text", "")`. */
  function TextOf(rd: Dict): Value { Get(rd, "text", VStr("")) }

  /** The confidence a token dict gives: `float(rd.get("confidence", 0.0))`. */
  function ConfOf(rd: Dict): Result<real> { ToFloat(Get(rd, "confidence", VNum(0.0))) }

  predicate IsDigitishDict(rd: Dict) { Digitish(TextOf(rd)) == Success(true) }

  /** What the digit-ish loop takes from one token dict: its confidence when it is digit-ish. */
  function Probe(rd: Dict): Result<Option<real>>
  {
    var dg := Digitish(TextOf(rd));
    if dg.Failure? then Failure(dg.error)
    else if !dg.value then Success(None)
    else
      var c := ConfOf(rd);
      if c.Failure? then Failure(c.error) else Success(Some(c.value))
  }

  lemma ProbeParts(rd: Dict)
    ensures Probe(rd).Success? <==>
      Digitish(TextOf(rd)).Success? && (IsDigitishDict(rd) ==> ConfOf(rd).Success?)
    ensures Probe(rd).Success? ==>
      (Probe(rd).value.Some? <==> IsDigitishDict(rd))
      && (Probe(rd).value.Some? ==> ConfOf(rd) == Success(Probe(rd).value.value))
  {
  }

  function Probes(dicts: seq<Dict>): (outs: seq<Result<Option<real>>>)
    ensures |outs| == |dicts|
  {
    seq(|dicts|, i requires 0 <= i < |dicts| => Probe(dicts[i]))
  }

  /** The confidences of the digit-ish token dicts, in order. */
  function DigitishOf(dicts: seq<Dict>): Result<seq<real>>
  {
    Collect(Probes(dicts))
  }

  /**
   * The loop succeeds exactly when every dict's text is testable and every
   * digit-ish dict's confidence converts.
   */
  lemma DigitishOfSucceeds(dicts: seq<Dict>)
    ensures DigitishOf(dicts).Success? <==>
      forall i :: 0 <= i < |dicts| ==>
        Digitish(TextOf(dicts[i])).Success? && (IsDigitishDict(dicts[i]) ==> ConfOf(dicts[i]).Success?)
  {
    var outs := Probes(dicts);
    CollectSpec(outs);
    forall i | 0 <= i < |dicts|
      ensures outs[i].Success? <==>
        Digitish(TextOf(dicts[i])).Success? && (IsDigitishDict(dicts[i]) ==> ConfOf(dicts[i]).Success?)
    {
      ProbeParts(dicts[i]);
    }
  }

  /** Every collected confidence is that of a digit-ish dict. */
  lemma DigitishOfSound(dicts: seq<Dict>, j: nat)
    requires DigitishOf(dicts).Success? && j < |DigitishOf(dicts).value|
    ensures exists i :: 0 <= i < |dicts| && IsDigitishDict(dicts[i])
                        && ConfOf(dicts[i]) == Success(DigitishOf(dicts).value[j])
  {
    var outs := Probes(dicts);
    CollectSpec(outs);
    var i :| 0 <= i < |outs| && outs[i] == Success(Some(DigitishOf(dicts).value[j]));
    ProbeParts(dicts[i]);
  }

  /** The confidence of every digit-ish dict is collected. */
  lemma DigitishOfComplete(dicts: seq<Dict>, i: nat)
    requires DigitishOf(dicts).Success? && i < |dicts| && IsDigitishDict(dicts[i])
    ensures exists j :: 0 <= j < |DigitishOf(dicts).value|
                        && ConfOf(dicts[i]) == Success(DigitishOf(dicts).value[j])
  {
    var outs := Probes(dicts);
    CollectSpec(outs);
    ProbeParts(dicts[i]);
    assert outs[i].Success? && outs[i].value.Some?;
  }

  /** The collected confidences are empty exactly when no dict is digit-ish. */
  lemma DigitishOfEmpty(dicts: seq<Dict>)
    requires DigitishOf(dicts).Success?
    ensures DigitishOf(dicts).value == [] <==> forall i :: 0 <= i < |dicts| ==> !IsDigitishDict(dicts[i])
  {
    var outs := Probes(dicts);
    CollectSpec(outs);
    forall i | 0 <= i < |dicts|
      ensures outs[i].value.None? <==> !IsDigitishDict(dicts[i])
    {
      ProbeParts(dicts[i]);
    }
  }

  /** The digit-ish loop over the token dicts. */
  method DigitishConfidences(dicts: seq<Dict>) returns (r: Result<seq<real>>)
    ensures r == DigitishOf(dicts)
  {
    ghost var outs := Probes(dicts);
    var digitish: seq<real> := [];
    var i := 0;
    while i < |dicts|
      invariant 0 <= i <= |dicts|
      invariant Collect(outs[..i]) == Success(digitish)
    {
      assert outs[..i + 1][..i] == outs[..i];
      var t := Get(dicts[i], "text", VStr(""));
      var dg := Digitish(t);
      if dg.Failure? {
        CollectFailureStays(outs, i + 1);
        return Failure(dg.error);
      }
      if dg.value {
        var c := ToFloat(Get(dicts[i], "confidence", VNum(0.0)));
        if c.Failure? {
          CollectFailureStays(outs, i + 1);
          return Failure(c.error);
        }
        digitish := digitish + [c.value];
      }
      i := i + 1;
    }
    assert outs[..|dicts|] == outs;
    return Success(digitish);
  }

  // --------------------------------------------------------------- median

  function RealLe(a: real, b: real): bool { a <= b }

  lemma RealLeTotal()
    ensures TotalOrder(RealLe)
  {
  }

  /** `sorted(d)[len(d) // 2]`: the upper median of the values. */
  function UpperMedian(d: seq<real>): (m: real)
    requires d != []
    ensures m in d
  {
    var s := SortBy(d, RealLe);
    assert s[|d| / 2] in multiset(s);
    s[|d| / 2]
  }

  /** The upper median is the middle element of any ordering of the values. */
  lemma UpperMedianSorted(d: seq<real>, s: seq<real>)
    requires d != [] && |s| == |d| && multiset(s) == multiset(d) && SortedBy(s, RealLe)
    ensures UpperMedian(d) == s[|d| / 2]
  {
    RealLeTotal();
    SortBySorted(d, RealLe);
    SortedUnique(SortBy(d, RealLe), s, RealLe);
  }

  /** The upper median does not depend on the order of the tokens. */
  lemma UpperMedianPermutation(d: seq<real>, e: seq<real>)
    requires d != [] && multiset(d) == multiset(e)
    ensures e != [] && UpperMedian(d) == UpperMedian(e)
  {
    assert |e| == |multiset(e)| == |multiset(d)| == |d|;
    RealLeTotal();
    SortByPermutationInvariant(d, e, RealLe);
  }

  /** Of four confidences, the upper median is the third smallest. */
  lemma UpperMedianFour(d: seq<real>)
    requires d == [0.9, 0.7, 0.2, 0.4]
    ensures UpperMedian(d) == 0.7
  {
    var s := [0.2, 0.4, 0.7, 0.9];
    assert s == [d[2], d[3], d[1], d[0]];
    assert multiset(s) == multiset(d);
    assert SortedBy(s, RealLe);
    UpperMedianSorted(d, s);
  }

  // ---------------------------------------------------------- candidates

  /** `re.sub(r"[^\d/-]+", "", s)`: the digits, slashes and dashes of `s`. */
  function DigitsOnly(s: string): string { Filter(s, DigitishChar) }

  /** The digits-only text is empty exactly when the text has no digit, slash or dash. */
  lemma {:induction false} DigitsOnlyEmpty(s: string)
    ensures DigitsOnly(s) == [] <==> !HasDigitish(s)
  {
    if s != [] {
      DigitsOnlyEmpty(s[1..]);
      FilterCons(s[0], s[1..], DigitishChar);
      assert [s[0]] + s[1..] == s;
      if HasDigitish(s) && !DigitishChar(s[0]) {
        var i :| 0 <= i < |s| && DigitishChar(s[i]);
        assert s[1..][i - 1] == s[i];
      }
    }
  }

  /** A candidate value: where it comes from, its text and its confidence. */
  datatype Candidate = Candidate(source: string, text: string, conf: real)

  /** The line-level candidates: the joined text, its digits (with a 0.1 bias) and the best token. */
  function Candidates(joined: string, bestText: string, conf: real): seq<Candidate>
  {
    (if |joined| > 0 then [Candidate("joined", joined, conf)] else [])
    + (if |DigitsOnly(joined)| > 0 then [Candidate("digits", DigitsOnly(joined), conf + 0.1)] else [])
    + (if |bestText| > 0 then [Candidate("token", bestText, conf)] else [])
  }

  /**
   * Every candidate has a non-empty text; there is a digits candidate
   * exactly when the joined text holds a digit, slash or dash, and it then
   * carries the bias; there are none when both texts are empty.
   */
  lemma CandidatesShape(joined: string, bestText: string, conf: real)
    ensures var cs := Candidates(joined, bestText, conf);
      && |cs| <= 3
      && (forall i :: 0 <= i < |cs| ==> |cs[i].text| > 0 && (cs[i].conf == conf || cs[i].conf == conf + 0.1))
      && ((exists i :: 0 <= i < |cs| && cs[i].source == "digits") <==> HasDigitish(joined))
      && (forall i :: 0 <= i < |cs| && cs[i].source == "digits" ==> cs[i].conf == conf + 0.1)
      && (cs == [] <==> |joined| == 0 && |bestText| == 0)
  {
    DigitsOnlyEmpty(joined);
    var cs := Candidates(joined, bestText, conf);
    if HasDigitish(joined) {
      assert |joined| > 0;
      assert cs[1].source == "digits";
    }
  }

  // -------------------------------------------------------------- choice

  /** The chosen value: its text, confidence and normalization. */
  datatype Choice = Choice(text: string, conf: real, norm: Normalized)

  const NoChoice := Choice("", 0.0, Normalized("text", "", false))

  function Rank(n: Normalized): int { if n.valid then 1 else 0 }

  /** `(1 if valid else 0, conf, len(text))` of `a` is greater than that of `b` as Python tuples. */
  predicate Beats(a: Choice, b: Choice)
  {
    || Rank(a.norm) > Rank(b.norm)
    || (Rank(a.norm) == Rank(b.norm) && (a.conf > b.conf || (a.conf == b.conf && |a.text| > |b.text|)))
  }

  /** A candidate with its normalization. */
  function AsChoice(c: Candidate, norm: string -> Normalized): Choice
  {
    Choice(c.text, c.conf, norm(c.text))
  }

  /** One step of the choice loop: a candidate replaces the choice when it beats it. */
  function Consider(ch: Choice, c: Candidate, norm: string -> Normalized): Choice
  {
    if Beats(AsChoice(c, norm), ch) then AsChoice(c, norm) else ch
  }

  /** The choice after considering the candidates in order. */
  function ChooseOf(cs: seq<Candidate>, norm: string -> Normalized): Choice
  {
    if cs == [] then NoChoice else Consider(ChooseOf(cs[..|cs| - 1], norm), cs[|cs| - 1], norm)
  }


  /**
   * No candidate beats the choice; the choice is the default or the earliest
   * candidate of its rank, confidence and length (every earlier one loses
   * to it).
   */
  lemma {:induction false} ChooseOfMaximal(cs: seq<Candidate>, norm: string -> Normalized)
    ensures forall i :: 0 <= i < |cs| ==> !Beats(AsChoice(cs[i], norm), ChooseOf(cs, norm))
    ensures || ChooseOf(cs, norm) == NoChoice
            || exists k :: 0 <= k < |cs| && ChooseOf(cs, norm) == AsChoice(cs[k], norm)
                 && forall i :: 0 <= i < k ==> Beats(AsChoice(cs[k], norm), AsChoice(cs[i], norm))
  {
    if cs != [] {
      var init, c := cs[..|cs| - 1], cs[|cs| - 1];
      ChooseOfMaximal(init, norm);
      assert forall i :: 0 <= i < |init| ==> init[i] == cs[i];
      var prev := ChooseOf(init, norm);
      if Beats(AsChoice(c, norm), prev) {
        assert ChooseOf(cs, norm) == AsChoice(cs[|cs| - 1], norm);
        forall i | 0 <= i < |cs| - 1 ensures Beats(AsChoice(cs[|cs| - 1], norm), AsChoice(cs[i], norm)) {
          assert !Beats(AsChoice(init[i], norm), prev);
        }
      } else if prev != NoChoice {
        var k :| 0 <= k < |init| && prev == AsChoice(init[k], norm)
          && forall i :: 0 <= i < k ==> Beats(AsChoice(init[k], norm), AsChoice(init[i], norm));
        assert cs[k] == init[k];
      }
    }
  }

  /** A candidate that normalizes validly makes the choice valid. */
  lemma ChooseOfValid(cs: seq<Candidate>, norm: string -> Normalized, i: nat)
    requires i < |cs| && norm(cs[i].text).valid
    ensures ChooseOf(cs, norm).norm.valid
  {
    ChooseOfMaximal(cs, norm);
    assert !Beats(AsChoice(cs[i], norm), ChooseOf(cs, norm));
  }

  /**
   * The choice loop of a region; `norm` is the region's normalization,
   * `normalize_field("section.name", text)`.
   */
  method ChooseCandidate(cs: seq<Candidate>, norm: string -> Normalized) returns (choice: Choice)
    ensures choice == ChooseOf(cs, norm)
  {
    var chosenText, chosenConf, chosenNorm := "", 0.0, Normalized("text", "", false);
    var i := 0;
    while i < |cs|
      invariant 0 <= i <= |cs|
      invariant Choice(chosenText, chosenConf, chosenNorm) == ChooseOf(cs[..i], norm)
    {
      assert cs[..i + 1][..i] == cs[..i];
      var txt, c := cs[i].text, cs[i].conf;
      var nrm := norm(txt);
      if Beats(Choice(txt, c, nrm), Choice(chosenText, chosenConf, chosenNorm)) {
        chosenText, chosenConf, chosenNorm := txt, c, nrm;
      }
      i := i + 1;
    }
    assert cs[..|cs|] == cs;
    return Choice(chosenText, chosenConf, chosenNorm);
  }
}
