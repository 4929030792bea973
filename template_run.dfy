/**
 * `TemplateExtractor.run` (src/templates/template_extractor.py): every
 * region of a template, in order, becomes one field of the output, and the
 * token dicts its engine returned are appended to the raw output of its
 * language.
 *
 * The image is its height and width; an OCR engine is a name, and running
 * engine `e` on a crop with a Tesseract configuration is the function
 * `ocr(e, crop, config)` of the environment.
 */
module TemplateRun {
  import opened Outcomes
  import opened Chars
  import opened PyValues
  import opened Validators
  import opened TemplateExtraction

  // ---------------------------------------------------------- python dicts

  /** A Python dict with string keys: its keys in insertion order and its entries. */
  datatype ODict<V> = ODict(keys: seq<string>, vals: map<string, V>)

  /** The keys are distinct and are exactly the keys of the entries. */
  ghost predicate WellFormed<V>(d: ODict<V>)
  {
    && (forall i, j :: 0 <= i < j < |d.keys| ==> d.keys[i] != d.keys[j])
    && (forall k :: k in d.vals <==> k in d.keys)
  }

  function EmptyDict<V>(): ODict<V> { ODict([], map[]) }

  /** `d[k] = v`: a new key goes last, an existing key keeps its place. */
  function Put<V>(d: ODict<V>, k: string, v: V): ODict<V>
  {
    ODict(if k in d.vals then d.keys else d.keys + [k], d.vals[k := v])
  }

  /**
   * Assignment keeps the dict well formed, stores the value under its key,
   * changes no other entry, and moves no key.
   */
  lemma PutSpec<V>(d: ODict<V>, k: string, v: V)
    requires WellFormed(d)
    ensures var e := Put(d, k, v);
      && WellFormed(e)
      && e.vals[k] == v
      && (forall k' :: k' != k ==> (k' in e.vals <==> k' in d.vals))
      && (forall k' :: k' != k && k' in d.vals ==> e.vals[k'] == d.vals[k'])
      && e.keys[..|d.keys|] == d.keys
      && |e.keys| == if k in d.vals then |d.keys| else |d.keys| + 1
  {
    var e := Put(d, k, v);
    if k !in d.vals {
      assert forall i :: 0 <= i < |d.keys| ==> e.keys[i] == d.keys[i];
      assert k !in d.keys;
    }
  }

  /** `d.get(k, [])` on a dict of lists. */
  function ListAt<T>(d: ODict<seq<T>>, k: string): seq<T>
  {
    if k in d.vals then d.vals[k] else []
  }

  /** `d.setdefault(k, []).extend(xs)`. */
  function Extend<T>(d: ODict<seq<T>>, k: string, xs: seq<T>): ODict<seq<T>>
  {
    Put(d, k, ListAt(d, k) + xs)
  }

  // ----------------------------------------------------------- one region

  /** The OCR engines run on a crop: engine name, crop and configuration to results. */
  type Ocr = (string, Crop, string) -> seq<Item>

  /**
   * What a run depends on besides the template: the image size, the
   * engines available under each language key, the engine calls, and the
   * normalization of a text under a field key.
   */
  datatype Env = Env(H: nat, W: nat, engines: map<string, string>, ocr: Ocr,
                     normalize: (string, string) -> Normalized)

  /** `normalize_field(key, text)`, searching the commune list in the given order. */
  function Normalizer(order: seq<string>): (string, string) -> Normalized
  {
    (key, text) => NormalizeField(Some(key), Some(text), order)
  }

  /** The normalization of the candidates of the field under `key`. */
  function NormOf(normalize: (string, string) -> Normalized, key: string): string -> Normalized
  {
    text => normalize(key, text)
  }

  /** One entry of the output's `fields`. */
  datatype Field = Field(value: string, norm: string, valid: bool, kind: string, conf: real, lang: string, bbox: Box)

  /** What one region contributes: its field under its key, and its token dicts under its language. */
  datatype RegionResult = RegionResult(key: string, field: Field, lang: string, raw: seq<Dict>)

  /** `" ".join(rd.get("text", "") for rd in dicts)`: a TypeError unless every text is a string. */
  function JoinTexts(dicts: seq<Dict>): Result<string>
  {
    if forall i :: 0 <= i < |dicts| ==> TextOf(dicts[i]).VStr? then
      Success(Join(seq(|dicts|, i requires 0 <= i < |dicts| && TextOf(dicts[i]).VStr? => TextOf(dicts[i]).s), " "))
    else
      Failure(TypeError("sequence item: expected str instance"))
  }

  /** The confidence of a field before the candidates: the upper median of the digit-ish confidences, if any. */
  function FieldConf(digitish: seq<real>, best: Best): real
  {
    if digitish != [] then UpperMedian(digitish) else best.conf
  }

  /** The text of the best token as a candidate: empty when it is not a string. */
  function BestText(best: Best): string
  {
    if best.text.VStr? then best.text.s else ""
  }

  /** The key of a region's field: `"section.name"`. */
  function FieldKey(section: string, name: string): string { section + "." + name }

  /** The body of the inner loop of `run` for one region. */
  function RegionOutcome(env: Env, section: string, name: string, rel: Region): Result<RegionResult>
  {
    var box := AbsBox(env.H, env.W, rel);
    if box.Failure? then Failure(box.error)
    else
      var config := Join(TessFlags(rel), " ");
      var lang := Route(section, name, rel.lang);
      var engine := EngineFor(env.engines, lang);
      if engine.Failure? then Failure(engine.error)
      else
        var items := env.ocr(engine.value, CropOf(box.value, rel), config);
        FieldOutcome(FieldKey(section, name), lang, box.value, items, NormOf(env.normalize, FieldKey(section, name)))
  }

  /** From an engine's results to the field of a region: scan, confidence, candidates and choice. */
  function FieldOutcome(key: string, lang: string, box: Box, items: seq<Item>, norm: string -> Normalized): Result<RegionResult>
  {
    var scan := Scanned(items);
    if scan.Failure? then Failure(scan.error)
    else
      var dicts := scan.value.0;
      var digitish := DigitishOf(dicts);
      if digitish.Failure? then Failure(digitish.error)
      else
        var joined := JoinTexts(dicts);
        if joined.Failure? then Failure(joined.error)
        else
          Success(ChosenField(key, lang, box, Strip(joined.value), BestText(scan.value.1),
                              FieldConf(digitish.value, scan.value.1), norm, dicts))
  }

  /** The field chosen among the candidates of a region, with its token dicts. */
  function ChosenField(key: string, lang: string, box: Box, text: string, bestText: string, conf: real,
                       norm: string -> Normalized, dicts: seq<Dict>): RegionResult
  {
    var choice := ChooseOf(Candidates(text, bestText, conf), norm);
    RegionResult(key, Field(choice.text, choice.norm.value, choice.norm.valid, choice.norm.kind, choice.conf, lang, box),
                 lang, dicts)
  }

  /**
   * Once every token text is a string, the best token's text is a string
   * too, so the token candidate is exactly the best text when it is
   * non-empty.
   */
  lemma BestTextIsString(items: seq<Item>)
    requires Scanned(items).Success? && JoinTexts(Scanned(items).value.0).Success?
    ensures Scanned(items).value.1.text.VStr?
  {
    var outs := Reads(items);
    ScanShape(outs);
    var s := ScanOf(outs).value;
    BestTextFrom(s.tokens);
    if BestOf(s.tokens).text != VStr("") {
      var i :| 0 <= i < |s.tokens| && BestOf(s.tokens).text == s.tokens[i].text;
      ReadItemParts(items[i]);
      assert outs[i] == ReadItem(items[i]);
      assert TextOf(s.dicts[i]).VStr?;
    }
  }

  /**
   * When some token is digit-ish the field confidence is the upper median
   * of the digit-ish confidences, hence the confidence of one of those
   * tokens; otherwise it is the best token's confidence.
   */
  lemma FieldConfSpec(dicts: seq<Dict>, best: Best)
    requires DigitishOf(dicts).Success?
    ensures (forall i :: 0 <= i < |dicts| ==> !IsDigitishDict(dicts[i])) ==>
      FieldConf(DigitishOf(dicts).value, best) == best.conf
    ensures (exists i :: 0 <= i < |dicts| && IsDigitishDict(dicts[i])) ==>
      && DigitishOf(dicts).value != []
      && FieldConf(DigitishOf(dicts).value, best) == UpperMedian(DigitishOf(dicts).value)
      && exists i :: 0 <= i < |dicts| && IsDigitishDict(dicts[i])
                     && ConfOf(dicts[i]) == Success(FieldConf(DigitishOf(dicts).value, best))
  {
    DigitishOfEmpty(dicts);
    var cs := DigitishOf(dicts).value;
    if cs != [] {
      var m := UpperMedian(cs);
      var j :| 0 <= j < |cs| && cs[j] == m;
      DigitishOfSound(dicts, j);
    }
  }

  /** A field outcome keeps its key, language, box and every token dict. */
  lemma FieldOutcomeParts(key: string, lang: string, box: Box, items: seq<Item>, norm: string -> Normalized)
    ensures var o := FieldOutcome(key, lang, box, items, norm);
      o.Success? ==> o.value.key == key && o.value.lang == lang && o.value.field.lang == lang
                     && o.value.field.bbox == box && o.value.raw == Scanned(items).value.0
  {
  }

  /**
   * A region's field sits under `"section.name"` with the routed language,
   * the clamped box (inside an image of at least one pixel) and every token
   * dict the engine returned; a missing coordinate raises KeyError and a
   * missing engine RuntimeError.
   */
  lemma RegionOutcomeSpec(env: Env, section: string, name: string, rel: Region)
    ensures var o := RegionOutcome(env, section, name, rel);
      && (rel.x.None? || rel.y.None? || rel.w.None? || rel.h.None? ==> o.Failure? && o.error.KeyError?)
      && (AbsBox(env.H, env.W, rel).Success? && EngineFor(env.engines, Route(section, name, rel.lang)).Failure? ==>
            o.Failure? && o.error.RuntimeError?)
      && (o.Success? ==>
            && o.value.key == FieldKey(section, name)
            && o.value.lang == Route(section, name, rel.lang) && o.value.field.lang == o.value.lang
            && o.value.field.bbox == AbsBox(env.H, env.W, rel).value
            && (env.H >= 1 && env.W >= 1 ==>
                  var b := o.value.field.bbox;
                  0 <= b.x < env.W && 0 <= b.y < env.H && 1 <= b.w <= env.W - b.x && 1 <= b.h <= env.H - b.y))
  {
    var box := AbsBox(env.H, env.W, rel);
    var lang := Route(section, name, rel.lang);
    var engine := EngineFor(env.engines, lang);
    if box.Success? && engine.Success? {
      var items := env.ocr(engine.value, CropOf(box.value, rel), Join(TessFlags(rel), " "));
      var norm := NormOf(env.normalize, FieldKey(section, name));
      FieldOutcomeParts(FieldKey(section, name), lang, box.value, items, norm);
      assert RegionOutcome(env, section, name, rel) == FieldOutcome(FieldKey(section, name), lang, box.value, items, norm);
    }
  }

  /** The inner-loop body of `run`: one region from its box to its field. */
  method ProcessRegion(env: Env, section: string, name: string, rel: Region) returns (r: Result<RegionResult>)
    ensures r == RegionOutcome(env, section, name, rel)
  {
    var box := AbsBox(env.H, env.W, rel);
    if box.Failure? {
      return Failure(box.error);
    }
    var crop := CropOf(box.value, rel);
    var config := BuildTessConfig(rel);
    var langKey := Route(section, name, rel.lang);
    var engine := EngineFor(env.engines, langKey);
    if engine.Failure? {
      return Failure(engine.error);
    }
    var results := env.ocr(engine.value, crop, config);
    r := ReadField(FieldKey(section, name), langKey, box.value, results, NormOf(env.normalize, FieldKey(section, name)));
  }

  /** The rest of the inner-loop body: the engine's results to the field. */
  method ReadField(key: string, langKey: string, box: Box, results: seq<Item>, norm: string -> Normalized)
    returns (r: Result<RegionResult>)
    ensures r == FieldOutcome(key, langKey, box, results, norm)
  {
    var scan := ScanResults(results);
    if scan.Failure? {
      return Failure(scan.error);
    }
    var safeRaw, best := scan.value.0, scan.value.1;
    var digitish := DigitishConfidences(safeRaw);
    if digitish.Failure? {
      return Failure(digitish.error);
    }
    var bestConf := best.conf;
    if digitish.value != [] {
      bestConf := UpperMedian(digitish.value);
    }
    var joined := JoinTexts(safeRaw);
    if joined.Failure? {
      return Failure(joined.error);
    }
    var field := ChooseField(key, langKey, box, Strip(joined.value), BestText(best), bestConf, norm, safeRaw);
    return Success(field);
  }

  /** The candidate and choice part of the inner-loop body. */
  method ChooseField(key: string, langKey: string, box: Box, text: string, bestText: string, bestConf: real,
                     norm: string -> Normalized, safeRaw: seq<Dict>) returns (r: RegionResult)
    ensures r == ChosenField(key, langKey, box, text, bestText, bestConf, norm, safeRaw)
  {
    var candidates: seq<Candidate> := [];
    if |text| > 0 {
      candidates := candidates + [Candidate("joined", text, bestConf)];
    }
    ghost var step := candidates;
    var digitsOnly := DigitsOnly(text);
    if |digitsOnly| > 0 {
      candidates := candidates + [Candidate("digits", digitsOnly, bestConf + 0.1)];
    }
    assert candidates == step + (if |DigitsOnly(text)| > 0 then [Candidate("digits", DigitsOnly(text), bestConf + 0.1)] else []);
    step := candidates;
    if |bestText| > 0 {
      candidates := candidates + [Candidate("token", bestText, bestConf)];
    }
    assert candidates == step + (if |bestText| > 0 then [Candidate("token", bestText, bestConf)] else []);
    assert candidates == Candidates(text, bestText, bestConf);
    var choice := ChooseCandidate(candidates, norm);
    var field := Field(choice.text, choice.norm.value, choice.norm.valid, choice.norm.kind, choice.conf, langKey, box);
    return RegionResult(key, field, langKey, safeRaw);
  }

  // ------------------------------------------------------------ the run

  /** A region of a template in the order `run` visits it. */
  datatype Entry = Entry(section: string, name: string, rel: Region)

  type Sections = seq<(string, seq<(string, Region)>)>

  function SectionEntries(section: string, fields: seq<(string, Region)>): (es: seq<Entry>)
    ensures |es| == |fields|
  {
    seq(|fields|, j requires 0 <= j < |fields| => Entry(section, fields[j].0, fields[j].1))
  }

  /** The regions of all sections, section by section. */
  function Entries(regions: Sections): seq<Entry>
  {
    if regions == [] then []
    else Entries(regions[..|regions| - 1]) + SectionEntries(regions[|regions| - 1].0, regions[|regions| - 1].1)
  }

  lemma {:induction false} EntriesAppend(a: Sections, b: Sections)
    ensures Entries(a + b) == Entries(a) + Entries(b)
  {
    if b != [] {
      var init := b[..|b| - 1];
      assert (a + b)[..|a + b| - 1] == a + init;
      EntriesAppend(a, init);
    } else {
      assert a + b == a;
    }
  }

  /** The sections up to `s + 1` add the regions of section `s`. */
  lemma EntriesNext(regions: Sections, s: nat)
    requires s < |regions|
    ensures Entries(regions[..s + 1]) == Entries(regions[..s]) + SectionEntries(regions[s].0, regions[s].1)
  {
    assert regions[..s + 1][..s] == regions[..s];
  }

  /** The regions of the first sections come before those of the rest. */
  lemma EntriesSplit(regions: Sections, s: nat)
    requires s <= |regions|
    ensures Entries(regions) == Entries(regions[..s]) + Entries(regions[s..])
  {
    assert regions == regions[..s] + regions[s..];
    EntriesAppend(regions[..s], regions[s..]);
  }

  lemma RegionOutcomesAppend(env: Env, a: seq<Entry>, b: seq<Entry>)
    ensures RegionOutcomes(env, a + b) == RegionOutcomes(env, a) + RegionOutcomes(env, b)
  {
    var l, r := RegionOutcomes(env, a + b), RegionOutcomes(env, a) + RegionOutcomes(env, b);
    forall i | 0 <= i < |l| ensures l[i] == r[i] {
      if i < |a| {
        assert (a + b)[i] == a[i];
      } else {
        assert (a + b)[i] == b[i - |a|];
      }
    }
  }

  /** The output being built: `fields` and `raw`. */
  datatype Acc = Acc(fields: ODict<Field>, raw: ODict<seq<Dict>>)

  /** One region recorded: its field assigned, its token dicts appended to its language. */
  function Record(acc: Acc, o: RegionResult): Acc
  {
    Acc(Put(acc.fields, o.key, o.field), Extend(acc.raw, o.lang, o.raw))
  }

  /** The output after recording the regions in order. */
  function Build(rs: seq<RegionResult>): Acc
  {
    if rs == [] then Acc(EmptyDict(), EmptyDict()) else Record(Build(rs[..|rs| - 1]), rs[|rs| - 1])
  }

  /** The loop over the regions' outcomes, stopping at the first that raises. */
  function Assemble(outs: seq<Result<RegionResult>>): Result<seq<RegionResult>>
  {
    if outs == [] then Success([])
    else
      var prev := Assemble(outs[..|outs| - 1]);
      var last := outs[|outs| - 1];
      if prev.Failure? then prev
      else if last.Failure? then Failure(last.error)
      else Success(prev.value + [last.value])
  }

  lemma {:induction false} AssembleFailureStays(outs: seq<Result<RegionResult>>, i: nat)
    requires i <= |outs| && Assemble(outs[..i]).Failure?
    ensures Assemble(outs) == Assemble(outs[..i])
  {
    if i < |outs| {
      var init := outs[..|outs| - 1];
      assert init[..i] == outs[..i];
      AssembleFailureStays(init, i);
    } else {
      assert outs[..i] == outs;
    }
  }

  /** The loop succeeds exactly when every region succeeds, and then yields every region's result in order. */
  lemma {:induction false} AssembleSpec(outs: seq<Result<RegionResult>>)
    ensures Assemble(outs).Success? <==> forall i :: 0 <= i < |outs| ==> outs[i].Success?
    ensures Assemble(outs).Success? ==>
      |Assemble(outs).value| == |outs| && forall i :: 0 <= i < |outs| ==> Assemble(outs).value[i] == outs[i].value
  {
    if outs != [] {
      var init := outs[..|outs| - 1];
      AssembleSpec(init);
      assert forall i :: 0 <= i < |init| ==> init[i] == outs[i];
    }
  }

  /** Running two lists of regions one after the other. */
  lemma {:induction false} AssembleAppend(x: seq<Result<RegionResult>>, y: seq<Result<RegionResult>>)
    ensures Assemble(x + y) ==
      if Assemble(x).Failure? then Assemble(x)
      else if Assemble(y).Failure? then Assemble(y)
      else Success(Assemble(x).value + Assemble(y).value)
  {
    if y == [] {
      assert x + y == x;
      if Assemble(x).Success? {
        assert Assemble(x).value + Assemble(y).value == Assemble(x).value;
      }
    } else {
      var init := y[..|y| - 1];
      assert (x + y)[..|x + y| - 1] == x + init;
      AssembleAppend(x, init);
      if Assemble(x).Success? && Assemble(init).Success? && y[|y| - 1].Success? {
        assert Assemble(x).value + Assemble(init).value + [y[|y| - 1].value]
            == Assemble(x).value + (Assemble(init).value + [y[|y| - 1].value]);
      }
    }
  }

  /** One more successful outcome extends the assembled prefix by its value. */
  lemma {:induction false} AssembleStep(outs: seq<Result<RegionResult>>, j: nat, rs: seq<RegionResult>)
    requires j < |outs| && Assemble(outs[..j]) == Success(rs)
    ensures outs[j].Success? ==> Assemble(outs[..j + 1]) == Success(rs + [outs[j].value])
    ensures outs[j].Failure? ==> Assemble(outs) == Failure(outs[j].error)
  {
    assert outs[..j + 1][..j] == outs[..j];
    if outs[j].Failure? {
      AssembleFailureStays(outs, j + 1);
    }
  }

  /** Recording one more region is one more `Record` step. */
  lemma {:induction false} BuildStep(done: seq<RegionResult>, rs: seq<RegionResult>, o: RegionResult)
    ensures Build(done + (rs + [o])) == Record(Build(done + rs), o)
  {
    assert (done + (rs + [o]))[..|done + (rs + [o])| - 1] == done + rs;
  }

  /** The token dicts of the regions routed to `lang`, in order. */
  function RawFor(rs: seq<RegionResult>, lang: string): seq<Dict>
  {
    if rs == [] then []
    else RawFor(rs[..|rs| - 1], lang) + (if rs[|rs| - 1].lang == lang then rs[|rs| - 1].raw else [])
  }

  /** Recording regions keeps both output dicts well formed. */
  lemma {:induction false} BuildWellFormed(rs: seq<RegionResult>)
    ensures WellFormed(Build(rs).fields) && WellFormed(Build(rs).raw)
  {
    if rs != [] {
      var init, o := rs[..|rs| - 1], rs[|rs| - 1];
      BuildWellFormed(init);
      PutSpec(Build(init).fields, o.key, o.field);
      PutSpec(Build(init).raw, o.lang, ListAt(Build(init).raw, o.lang) + o.raw);
    }
  }

  /** `fields` has exactly one key per distinct `"section.name"` of the regions. */
  lemma {:induction false} BuildFieldKeys(rs: seq<RegionResult>)
    ensures forall k :: k in Build(rs).fields.vals <==> exists i :: 0 <= i < |rs| && rs[i].key == k
  {
    if rs != [] {
      var init, o := rs[..|rs| - 1], rs[|rs| - 1];
      BuildFieldKeys(init);
      var before := Build(init).fields.vals;
      assert Build(rs).fields.vals == before[o.key := o.field];
      forall k | k in Build(rs).fields.vals
        ensures exists i :: 0 <= i < |rs| && rs[i].key == k
      {
        if k != o.key {
          var i :| 0 <= i < |init| && init[i].key == k;
          assert rs[i] == init[i];
        } else {
          assert rs[|rs| - 1].key == k;
        }
      }
      forall k | exists i :: 0 <= i < |rs| && rs[i].key == k
        ensures k in Build(rs).fields.vals
      {
        var i :| 0 <= i < |rs| && rs[i].key == k;
        if i < |init| {
          assert init[i] == rs[i];
        }
      }
    }
  }

  /** A field holds what the last region with its key produced. */
  lemma {:induction false} BuildFieldLast(rs: seq<RegionResult>, i: nat)
    requires i < |rs| && forall j :: i < j < |rs| ==> rs[j].key != rs[i].key
    ensures rs[i].key in Build(rs).fields.vals && Build(rs).fields.vals[rs[i].key] == rs[i].field
  {
    var init := rs[..|rs| - 1];
    if i < |init| {
      assert rs[|rs| - 1].key != rs[i].key;
      assert forall j :: i < j < |init| ==> init[j] == rs[j];
      BuildFieldLast(init, i);
    }
  }

  /** `raw` has exactly the routed languages as keys. */
  lemma {:induction false} BuildRawKeys(rs: seq<RegionResult>)
    ensures forall l :: l in Build(rs).raw.vals <==> exists i :: 0 <= i < |rs| && rs[i].lang == l
  {
    if rs != [] {
      var init, o := rs[..|rs| - 1], rs[|rs| - 1];
      BuildRawKeys(init);
      assert forall i :: 0 <= i < |init| ==> init[i] == rs[i];
      forall l | l in Build(rs).raw.vals
        ensures exists i :: 0 <= i < |rs| && rs[i].lang == l
      {
        if l != o.lang {
          var i :| 0 <= i < |init| && init[i].lang == l;
          assert rs[i].lang == l;
        } else {
          assert rs[|rs| - 1].lang == l;
        }
      }
    }
  }

  /** Each language's raw list is the token dicts of its regions, in order. */
  lemma {:induction false} BuildRaw(rs: seq<RegionResult>, l: string)
    ensures ListAt(Build(rs).raw, l) == RawFor(rs, l)
  {
    if rs != [] {
      BuildRaw(rs[..|rs| - 1], l);
    }
  }

  // --------------------------------------------------------- templates

  /** A template: its top-level entries other than the regions, and its regions (None when it has none). */
  datatype Template = Template(meta: Dict, regions: Option<Sections>)

  datatype Metadata = Metadata(templateName: Value, templateNameAr: Value, templateVersion: Value, requiredFields: Value)

  /** The metadata of the output, with its defaults. */
  function MetadataOf(tpl: Dict): Metadata
  {
    Metadata(Get(tpl, "name", VNone), Get(tpl, "name_ar", VNone),
             Get(tpl, "template_version", VStr("1.0")), Get(tpl, "required_fields", VList([])))
  }

  /** The output of `run`. */
  datatype Output = Output(fields: ODict<Field>, raw: ODict<seq<Dict>>, metadata: Metadata)

  /** The outcome of every region of a template. */
  function RegionOutcomes(env: Env, es: seq<Entry>): (outs: seq<Result<RegionResult>>)
    ensures |outs| == |es|
  {
    seq(|es|, i requires 0 <= i < |es| => RegionOutcome(env, es[i].section, es[i].name, es[i].rel))
  }

  /** `run` on the template under `key`. */
  function RunSpec(templates: map<string, Template>, env: Env, key: string): Result<Output>
  {
    if key !in templates then Failure(KeyError(key))
    else
      var tpl := templates[key];
      if tpl.regions.None? then Failure(KeyError("regions"))
      else
        var rs := Assemble(RegionOutcomes(env, Entries(tpl.regions.value)));
        if rs.Failure? then Failure(rs.error)
        else
          var acc := Build(rs.value);
          Success(Output(acc.fields, acc.raw, MetadataOf(tpl.meta)))
  }

  /**
   * An unknown template key raises KeyError; a run succeeds exactly when
   * every region does, and then has one field per `"section.name"` of the
   * template and the metadata defaults `template_version` "1.0" and
   * `required_fields` [].
   */
  lemma RunSpecOutcome(templates: map<string, Template>, env: Env, key: string)
    ensures key !in templates ==> RunSpec(templates, env, key) == Failure(KeyError(key))
    ensures key in templates && templates[key].regions.Some? ==>
      var es := Entries(templates[key].regions.value);
      var r := RunSpec(templates, env, key);
      && (r.Success? <==> forall i :: 0 <= i < |es| ==> RegionOutcome(env, es[i].section, es[i].name, es[i].rel).Success?)
      && (r.Success? ==>
            && (forall k :: k in r.value.fields.vals <==> exists i :: 0 <= i < |es| && FieldKey(es[i].section, es[i].name) == k)
            && ("template_version" !in templates[key].meta ==> r.value.metadata.templateVersion == VStr("1.0"))
            && ("required_fields" !in templates[key].meta ==> r.value.metadata.requiredFields == VList([])))
  {
    if key in templates && templates[key].regions.Some? {
      var es := Entries(templates[key].regions.value);
      var outs := RegionOutcomes(env, es);
      AssembleSpec(outs);
      if Assemble(outs).Success? {
        var rs := Assemble(outs).value;
        BuildFieldKeys(rs);
        forall i | 0 <= i < |es| ensures rs[i].key == FieldKey(es[i].section, es[i].name) {
          RegionOutcomeSpec(env, es[i].section, es[i].name, es[i].rel);
        }
      }
      forall i | 0 <= i < |es|
        ensures outs[i].Success? <==> RegionOutcome(env, es[i].section, es[i].name, es[i].rel).Success?
      {
      }
    }
  }

  /** The extractor, holding the parsed templates by key. */
  class TemplateExtractor {
    var templates: map<string, Template>

    constructor (templates: map<string, Template>)
      ensures this.templates == templates
    {
      this.templates := templates;
    }

    /** `run` on an image of height H and width W. */
    method Run(H: nat, W: nat, key: string, engines: map<string, string>, ocr: Ocr, order: seq<string>)
      returns (r: Result<Output>)
      ensures r == RunSpec(templates, Env(H, W, engines, ocr, Normalizer(order)), key)
    {
      var env := Env(H, W, engines, ocr, Normalizer(order));
      if key !in templates {
        return Failure(KeyError(key));
      }
      var tpl := templates[key];
      if tpl.regions.None? {
        return Failure(KeyError("regions"));
      }
      var regions := tpl.regions.value;
      var fields: ODict<Field> := EmptyDict();
      var raw: ODict<seq<Dict>> := EmptyDict();
      ghost var done: seq<RegionResult> := [];
      var s := 0;
      while s < |regions|
        invariant 0 <= s <= |regions|
        invariant Assemble(RegionOutcomes(env, Entries(regions[..s]))) == Success(done)
        invariant Build(done) == Acc(fields, raw)
      {
        EntriesNext(regions, s);
        var section := SectionEntries(regions[s].0, regions[s].1);
        RegionOutcomesAppend(env, Entries(regions[..s]), section);
        AssembleAppend(RegionOutcomes(env, Entries(regions[..s])), RegionOutcomes(env, section));
        var acc;
        ghost var rs;
        SectionOutcomes(env, regions[s].0, regions[s].1);
        acc, rs := ProcessSection(env, regions[s].0, regions[s].1, fields, raw, done, RegionOutcomes(env, section));
        if acc.Failure? {
          EntriesSplit(regions, s + 1);
          RegionOutcomesAppend(env, Entries(regions[..s + 1]), Entries(regions[s + 1..]));
          AssembleAppend(RegionOutcomes(env, Entries(regions[..s + 1])), RegionOutcomes(env, Entries(regions[s + 1..])));
          return Failure(acc.error);
        }
        fields, raw := acc.value.fields, acc.value.raw;
        done := done + rs;
        s := s + 1;
      }
      assert regions[..|regions|] == regions;
      return Success(Output(fields, raw, MetadataOf(tpl.meta)));
    }
  }

  /** `outs` are the outcomes of the section's regions, one per field, in order. */
  ghost predicate OutcomesOf(env: Env, section: string, sectionFields: seq<(string, Region)>, outs: seq<Result<RegionResult>>)
  {
    && |outs| == |sectionFields|
    && forall j {:trigger sectionFields[j]} :: 0 <= j < |sectionFields| ==>
         outs[j] == RegionOutcome(env, section, sectionFields[j].0, sectionFields[j].1)
  }

  lemma SectionOutcomes(env: Env, section: string, sectionFields: seq<(string, Region)>)
    ensures OutcomesOf(env, section, sectionFields, RegionOutcomes(env, SectionEntries(section, sectionFields)))
  {
  }

  /** One pass of the inner loop: process the j-th region and record its field and its tokens. */
  method RecordRegion(env: Env, section: string, sectionFields: seq<(string, Region)>, j: nat,
                      fields: ODict<Field>, raw: ODict<seq<Dict>>, ghost done: seq<RegionResult>,
                      ghost rs: seq<RegionResult>, ghost outs: seq<Result<RegionResult>>)
    returns (o: Result<RegionResult>, fields': ODict<Field>, raw': ODict<seq<Dict>>)
    requires j < |sectionFields| && OutcomesOf(env, section, sectionFields, outs)
    requires Build(done + rs) == Acc(fields, raw) && Assemble(outs[..j]) == Success(rs)
    ensures o == outs[j]
    ensures o.Failure? ==> Assemble(outs) == Failure(o.error)
    ensures o.Success? ==> Assemble(outs[..j + 1]) == Success(rs + [o.value])
    ensures o.Success? ==> Build(done + (rs + [o.value])) == Acc(fields', raw')
  {
    o := ProcessRegion(env, section, sectionFields[j].0, sectionFields[j].1);
    AssembleStep(outs, j, rs);
    fields', raw' := fields, raw;
    if o.Success? {
      BuildStep(done, rs, o.value);
      fields' := Put(fields, o.value.key, o.value.field);
      raw' := Extend(raw, o.value.lang, o.value.raw);
    }
  }

  /**
   * The inner loop of `run`: the regions of one section, recorded after those
   * already done; `outs` are the regions' outcomes.
   */
  method ProcessSection(env: Env, section: string, sectionFields: seq<(string, Region)>,
                        fields: ODict<Field>, raw: ODict<seq<Dict>>, ghost done: seq<RegionResult>,
                        ghost outs: seq<Result<RegionResult>>)
    returns (r: Result<Acc>, ghost rs: seq<RegionResult>)
    requires Build(done) == Acc(fields, raw)
    requires OutcomesOf(env, section, sectionFields, outs)
    ensures Assemble(outs).Failure? ==> r == Failure(Assemble(outs).error)
    ensures Assemble(outs).Success? ==> rs == Assemble(outs).value && r == Success(Build(done + rs))
  {
    var fs, rw := fields, raw;
    rs := [];
    assert done + rs == done;
    var j := 0;
    while j < |sectionFields|
      invariant 0 <= j <= |sectionFields|
      invariant Assemble(outs[..j]) == Success(rs)
      invariant Build(done + rs) == Acc(fs, rw)
    {
      var o, fs', rw' := RecordRegion(env, section, sectionFields, j, fs, rw, done, rs, outs);
      if o.Failure? {
        return Failure(o.error), rs;
      }
      fs, rw, rs := fs', rw', rs + [o.value];
      j := j + 1;
    }
    assert outs[..|sectionFields|] == outs;
    return Success(Acc(fs, rw)), rs;
  }
}
