/**
 * The JSON conversion hooks of the document cache
 * (src/utils/document_management.py): `_default`, which makes OCR results
 * and tuples serialisable, and `_hook`, which turns a decoded dict that looks
 * like an OCR result back into one. Reading and writing the cache file is
 * not modelled.
 */
module DocumentCache {
  import opened Outcomes
  import opened PyValues
  import opened OcrBase

  /** What `json.dump` hands to `_default`: an OCR result, a tuple, or any other object. */
  datatype Obj = OResult(result: OCRResult) | OTuple(items: seq<Value>) | OOther(typeName: string)

  /** What `_default` returns for `json.dump` to write: a dict or a list. */
  datatype Serialized = SDict(dict: Dict) | SList(items: seq<Value>)

  /** `DocumentCache._default` */
  function Default(o: Obj): (r: Result<Serialized>)
    ensures r.Failure? <==> o.OOther?
    ensures r.Failure? ==> r.error.TypeError?
    ensures o.OTuple? ==> r == Success(SList(o.items))
    ensures o.OResult? ==> r.Success? && r.value.SDict? && r.value.dict.Keys == ResultKeys
  {
    match o
    case OResult(res) => Success(SDict(ToDict(res)))
    case OTuple(items) => Success(SList(items))
    case OOther(name) => Failure(TypeError("Object of type " + name + " is not JSON serializable"))
  }

  /** What `_hook` returns: a rehydrated OCR result or the dict itself. */
  datatype Hooked = Rehydrated(result: OCRResult) | Unchanged(dict: Dict)

  /** The keys a dict needs to be read back as an OCR result. */
  const HookKeys: set<string> := {"text", "confidence", "bbox"}

  const ZeroBox: seq<Value> := [VInt(0), VInt(0), VInt(0), VInt(0)]

  /** `tuple(d.get("bbox") or ())` */
  function BoxItems(v: Value): (r: Result<seq<Value>>)
    ensures !Truthy(v) ==> r == Success([])
    ensures Truthy(v) ==> r == Iterate(v)
  {
    if Truthy(v) then Iterate(v) else Success([])
  }

  /**
   * `DocumentCache._hook`. The bbox is read first, then the text, then the
   * confidence; the first of them that fails raises.
   */
  function Hook(d: Dict): (r: Result<Hooked>)
    ensures !(HookKeys <= d.Keys) <==> r == Success(Unchanged(d))
    ensures r.Success? && r.value.Rehydrated? ==>
      var res := r.value.result;
      && d["text"] == VStr(res.text)
      && ToFloat(d["confidence"]) == Success(res.confidence)
      && res.bbox.Some? && |res.bbox.value| == 4
      && res.page == Get(d, "page", VNone) && res.lang == Get(d, "lang", VNone)
  {
    if !(HookKeys <= d.Keys) then Success(Unchanged(d))
    else
      var box := BoxItems(d["bbox"]);
      var conf := ToFloat(d["confidence"]);
      if box.Failure? then Failure(box.error)
      else if !d["text"].VStr? then Failure(TypeError("text is not a string"))
      else if conf.Failure? then Failure(conf.error)
      else
        Success(Rehydrated(OCRResult(
          d["text"].s,
          conf.value,
          Some(if |box.value| == 4 then box.value else ZeroBox),
          Get(d, "page", VNone),
          Get(d, "lang", VNone))))
  }

  /** Reading back what `to_dict` wrote gives the same OCR result, when its bbox has four entries. */
  lemma HookToDict(r: OCRResult)
    requires r.bbox.Some? && |r.bbox.value| == 4
    ensures Hook(ToDict(r)) == Success(Rehydrated(r))
  {
    var d := ToDict(r);
    assert HookKeys <= d.Keys;
    assert BoxItems(d["bbox"]) == Success(r.bbox.value);
  }

  /** The same round trip through `_default`, with the JSON encoding taken as the identity. */
  lemma HookDefault(r: OCRResult)
    requires r.bbox.Some? && |r.bbox.value| == 4
    ensures Default(OResult(r)).Success? && Default(OResult(r)).value.SDict?
    ensures Hook(Default(OResult(r)).value.dict) == Success(Rehydrated(r))
  {
    HookToDict(r);
  }

  /**
   * A result without a bbox, or with one of any length other than four, is
   * read back with the bbox (0, 0, 0, 0).
   */
  lemma HookZeroBox(d: Dict)
    requires HookKeys <= d.Keys && d["text"].VStr? && ToFloat(d["confidence"]).Success?
    requires BoxItems(d["bbox"]).Success? && |BoxItems(d["bbox"]).value| != 4
    ensures Hook(d).Success? && Hook(d).value.Rehydrated?
    ensures Hook(d).value.result.bbox == Some(ZeroBox)
  {
  }

  /** A null or empty bbox becomes (0, 0, 0, 0). */
  lemma HookFalsyBox(d: Dict)
    requires HookKeys <= d.Keys && d["text"].VStr? && ToFloat(d["confidence"]).Success?
    requires !Truthy(d["bbox"])
    ensures Hook(d).Success? && Hook(d).value.Rehydrated? && Hook(d).value.result.bbox == Some(ZeroBox)
  {
    HookZeroBox(d);
  }
}
