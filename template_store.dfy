/**
 * The older template store: templates are read from a parsed JSON document
 * into `TemplateRegion` records (one per section and region name), kept in a
 * dict by template id, and used to cut an image into named crops from
 * relative coordinates. The image is represented by its height and width
 * only; a crop is the pair of row and column ranges the slice selects.
 */
module TemplateStore {
  import opened Outcomes
  import opened PyValues
  import opened Sorting
  import TE = TemplateExtraction

  // ------------------------------------------------------------ JSON

  /**
   * A parsed JSON value. Integers and floats are both numbers; an object's
   * fields are listed in document order.
   */
  datatype Json =
    | JNull
    | JBool(b: bool)
    | JNum(r: real)
    | JStr(s: string)
    | JArr(items: seq<Json>)
    | JObj(fields: seq<(string, Json)>)

  /** The value of the first field named `k`. */
  function Lookup(fields: seq<(string, Json)>, k: string): (r: Option<Json>)
    ensures r.Some? <==> exists i :: 0 <= i < |fields| && fields[i].0 == k
    ensures r.Some? ==> exists i :: 0 <= i < |fields| && fields[i] == (k, r.value)
  {
    if fields == [] then None
    else if fields[0].0 == k then Some(fields[0].1)
    else
      var r := Lookup(fields[1..], k);
      assert forall i :: 1 <= i < |fields| ==> fields[i] == fields[1..][i - 1];
      assert r.Some? ==> exists i :: 0 <= i < |fields[1..]| && fields[1..][i] == (k, r.value);
      r
  }

  /** `v[k]`: a missing key raises KeyError, and a value that is not an object TypeError. */
  function Index(v: Json, k: string): (r: Result<Json>)
    ensures r.Failure? ==> r.error == (if v.JObj? then KeyError(k) else TypeError("not subscriptable by a string"))
  {
    if !v.JObj? then Failure(TypeError("not subscriptable by a string"))
    else
      match Lookup(v.fields, k)
      case None => Failure(KeyError(k))
      case Some(x) => Success(x)
  }

  /** `v.items()`: only an object has them. */
  function Items(v: Json): (r: Result<seq<(string, Json)>>)
    ensures r.Success? <==> v.JObj?
    ensures r.Success? ==> r.value == v.fields
  {
    if v.JObj? then Success(v.fields) else Failure(AttributeError("items"))
  }

  // ------------------------------------------------------------ loading

  /** A region of a template, its coordinates as the JSON gave them. */
  datatype TemplateRegion = TemplateRegion(x: Json, y: Json, w: Json, h: Json, name: string, section: string)

  datatype Template = Template(name: Json, nameAr: Json, version: Json, regions: seq<TemplateRegion>, requiredFields: Json)

  /** `TemplateRegion(x=c['x'], y=c['y'], w=c['w'], h=c['h'], ...)`, the keys read in that order. */
  function RegionOf(section: string, name: string, coords: Json): (r: Result<TemplateRegion>)
    ensures r.Success? ==> r.value.section == section && r.value.name == name
  {
    match Index(coords, "x")
    case Failure(e) => Failure(e)
    case Success(x) =>
      match Index(coords, "y")
      case Failure(e) => Failure(e)
      case Success(y) =>
        match Index(coords, "w")
        case Failure(e) => Failure(e)
        case Success(w) =>
          match Index(coords, "h")
          case Failure(e) => Failure(e)
          case Success(h) => Success(TemplateRegion(x, y, w, h, name, section))
  }

  /** The inner loop: the regions of one section, in the order of its fields. */
  function SectionRegions(section: string, fields: seq<(string, Json)>): Result<seq<TemplateRegion>>
  {
    if fields == [] then Success([])
    else
      match SectionRegions(section, fields[..|fields| - 1])
      case Failure(e) => Failure(e)
      case Success(rs) =>
        var f := fields[|fields| - 1];
        match RegionOf(section, f.0, f.1)
        case Failure(e) => Failure(e)
        case Success(r) => Success(rs + [r])
  }

  /** One section: its data must be an object. */
  function SectionOf(sec: (string, Json)): Result<seq<TemplateRegion>>
  {
    match Items(sec.1)
    case Failure(e) => Failure(e)
    case Success(fields) => SectionRegions(sec.0, fields)
  }

  /** The outer loop: the sections' regions one after the other. */
  function SectionsRegions(secs: seq<(string, Json)>): Result<seq<TemplateRegion>>
  {
    if secs == [] then Success([])
    else
      match SectionsRegions(secs[..|secs| - 1])
      case Failure(e) => Failure(e)
      case Success(rs) =>
        match SectionOf(secs[|secs| - 1])
        case Failure(e) => Failure(e)
        case Success(more) => Success(rs + more)
  }

  /** The regions of `template_data['regions']`. */
  function RegionsOf(regions: Json): Result<seq<TemplateRegion>>
  {
    match Items(regions)
    case Failure(e) => Failure(e)
    case Success(secs) => SectionsRegions(secs)
  }

  /** One template: its regions first, then name, name_ar, template_version and required_fields. */
  function TemplateOf(data: Json): Result<Template>
  {
    match Index(data, "regions")
    case Failure(e) => Failure(e)
    case Success(rj) =>
      match RegionsOf(rj)
      case Failure(e) => Failure(e)
      case Success(regions) =>
        match Index(data, "name")
        case Failure(e) => Failure(e)
        case Success(name) =>
          match Index(data, "name_ar")
          case Failure(e) => Failure(e)
          case Success(nameAr) =>
            match Index(data, "template_version")
            case Failure(e) => Failure(e)
            case Success(version) =>
              match Index(data, "required_fields")
              case Failure(e) => Failure(e)
              case Success(req) => Success(Template(name, nameAr, version, regions, req))
  }

  /** The templates of the document's entries, in order; the first entry that fails stops the load. */
  function TemplatesOf(entries: seq<(string, Json)>): Result<seq<(string, Template)>>
  {
    if entries == [] then Success([])
    else
      match TemplatesOf(entries[..|entries| - 1])
      case Failure(e) => Failure(e)
      case Success(ts) =>
        var entry := entries[|entries| - 1];
        match TemplateOf(entry.1)
        case Failure(e) => Failure(e)
        case Success(t) => Success(ts + [(entry.0, t)])
  }

  /** Whatever goes wrong while loading is re-raised as this error. */
  const LoadError := RuntimeError("Failed to load templates")

  /**
   * `_load_templates` on the parsed file, None standing for a file that
   * cannot be opened or parsed. Any failure becomes the one RuntimeError.
   */
  function LoadAll(raw: Option<Json>): (r: Result<seq<(string, Template)>>)
    ensures r.Failure? ==> r.error == LoadError
  {
    if raw.None? then Failure(LoadError)
    else
      match Items(raw.value)
      case Failure(_) => Failure(LoadError)
      case Success(entries) =>
        match TemplatesOf(entries)
        case Failure(_) => Failure(LoadError)
        case Success(ts) => Success(ts)
  }

  // ------------------------------------------------------------ the dict of templates

  /** `d[k] = v` on a dict kept as its key order and its mapping: a new key goes last, an old one keeps its place. */
  function InsertKey<V>(keys: seq<string>, m: map<string, V>, k: string, v: V): (seq<string>, map<string, V>)
  {
    (if k in m then keys else keys + [k], m[k := v])
  }

  /** The dict after assigning each loaded template in turn. */
  function Stored(ts: seq<(string, Template)>): (seq<string>, map<string, Template>)
  {
    if ts == [] then ([], map[])
    else
      var prev := Stored(ts[..|ts| - 1]);
      var t := ts[|ts| - 1];
      InsertKey(prev.0, prev.1, t.0, t.1)
  }

  /** The key order lists each key of the mapping once. */
  ghost predicate DictShape<V>(keys: seq<string>, m: map<string, V>) {
    Distinct(keys) && forall k :: k in m <==> k in keys
  }

  /** Assigning a key keeps the dict's shape. */
  lemma InsertKeyShape<V>(keys: seq<string>, m: map<string, V>, k: string, v: V)
    requires DictShape(keys, m)
    ensures DictShape(InsertKey(keys, m, k, v).0, InsertKey(keys, m, k, v).1)
  {
    if k !in m {
      var ks := keys + [k];
      forall i, j | 0 <= i < j < |ks| ensures ks[i] != ks[j] {
        if j == |keys| {
          assert ks[i] in keys;
        }
      }
    }
  }

  /** After the load the dict lists each id once. */
  lemma {:induction false} StoredShape(ts: seq<(string, Template)>)
    ensures DictShape(Stored(ts).0, Stored(ts).1)
  {
    if ts != [] {
      var prev := Stored(ts[..|ts| - 1]);
      var t := ts[|ts| - 1];
      StoredShape(ts[..|ts| - 1]);
      InsertKeyShape(prev.0, prev.1, t.0, t.1);
    }
  }

  /** The dict holds exactly the ids of the document. */
  lemma {:induction false} StoredIds(ts: seq<(string, Template)>)
    ensures forall id :: id in Stored(ts).1 <==> exists i :: 0 <= i < |ts| && ts[i].0 == id
  {
    if ts != [] {
      var init := ts[..|ts| - 1];
      StoredIds(init);
      forall id ensures id in Stored(ts).1 <==> exists i :: 0 <= i < |ts| && ts[i].0 == id {
        if exists i :: 0 <= i < |ts| && ts[i].0 == id {
          var i :| 0 <= i < |ts| && ts[i].0 == id;
          if i < |init| {
            assert init[i].0 == id;
          }
        }
        if id in Stored(init).1 {
          var i :| 0 <= i < |init| && init[i].0 == id;
          assert ts[i].0 == id;
        }
      }
    }
  }

  /** Each id maps to the last template read under it. */
  lemma {:induction false} StoredLast(ts: seq<(string, Template)>, i: nat)
    requires i < |ts| && forall j :: i < j < |ts| ==> ts[j].0 != ts[i].0
    ensures ts[i].0 in Stored(ts).1 && Stored(ts).1[ts[i].0] == ts[i].1
  {
    if i < |ts| - 1 {
      var init := ts[..|ts| - 1];
      assert init[i] == ts[i];
      StoredLast(init, i);
    }
  }

  // ------------------------------------------------------------ crops

  /** A JSON number as Python arithmetic sees it; True and False count as 1 and 0. */
  function Num(v: Json): Result<real>
  {
    match v
    case JNum(r) => Success(r)
    case JBool(b) => Success(if b then 1.0 else 0.0)
    case _ => Failure(TypeError("unsupported operand type"))
  }

  /** Where a Python slice bound `i` lands in a sequence of length `n`. */
  function Clip(i: int, n: nat): (r: nat)
    ensures r <= n
  {
    if i < 0 then (if i + n < 0 then 0 else i + n) else (if i > n then n else i)
  }

  /** The rows and columns `image[y1:y2, x1:x2]` selects: [top, bottom) by [left, right). */
  datatype Roi = Roi(top: nat, bottom: nat, left: nat, right: nat)

  function Slice(H: nat, W: nat, x1: int, y1: int, x2: int, y2: int): (roi: Roi)
    ensures roi.top <= roi.bottom <= H && roi.left <= roi.right <= W
  {
    var top := Clip(y1, H);
    var left := Clip(x1, W);
    Roi(top, if Clip(y2, H) < top then top else Clip(y2, H), left, if Clip(x2, W) < left then left else Clip(x2, W))
  }

  /** `roi.size > 0`: at least one row and one column (an image has at least one channel). */
  predicate NonEmpty(roi: Roi) {
    roi.top < roi.bottom && roi.left < roi.right
  }

  /** The four corners, each a truncated product, in the order the code computes them. */
  function CornersOf(r: TemplateRegion, H: nat, W: nat): Result<(int, int, int, int)>
  {
    match Num(r.x)
    case Failure(e) => Failure(e)
    case Success(x) =>
      match Num(r.y)
      case Failure(e) => Failure(e)
      case Success(y) =>
        match Num(r.w)
        case Failure(e) => Failure(e)
        case Success(w) =>
          match Num(r.h)
          case Failure(e) => Failure(e)
          case Success(h) =>
            Success((Trunc(TE.Scaled(x, W)), Trunc(TE.Scaled(y, H)), Trunc(TE.Scaled(x + w, W)), Trunc(TE.Scaled(y + h, H))))
  }

  function RoiOf(r: TemplateRegion, H: nat, W: nat): Result<Roi>
  {
    match CornersOf(r, H, W)
    case Failure(e) => Failure(e)
    case Success(c) => Success(Slice(H, W, c.0, c.1, c.2, c.3))
  }

  /** `f"{region.section}.{region.name}"` */
  function KeyOf(r: TemplateRegion): string { r.section + "." + r.name }

  /** The crops dict: keys in insertion order and their regions of interest. */
  datatype Crops = Crops(keys: seq<string>, rois: map<string, Roi>)

  /** The loop of `extract_regions` over the template's regions, the last region last. */
  function CropsOf(regions: seq<TemplateRegion>, H: nat, W: nat): Result<Crops>
  {
    if regions == [] then Success(Crops([], map[]))
    else
      match CropsOf(regions[..|regions| - 1], H, W)
      case Failure(e) => Failure(e)
      case Success(cs) =>
        var r := regions[|regions| - 1];
        match RoiOf(r, H, W)
        case Failure(e) => Failure(e)
        case Success(roi) =>
          if NonEmpty(roi) then
            var d := InsertKey(cs.keys, cs.rois, KeyOf(r), roi);
            Success(Crops(d.0, d.1))
          else Success(cs)
  }

  /** `extract_regions` on an image of height H and width W. */
  function Extract(templates: map<string, Template>, id: string, H: nat, W: nat): Result<Crops>
  {
    if id !in templates then Failure(ValueError("Unknown template: " + id))
    else CropsOf(templates[id].regions, H, W)
  }

  /** Template info as `get_template_info` returns it. */
  datatype Info = Info(name: Json, nameAr: Json, version: Json, requiredFields: Json, regionsCount: nat)

  /** One entry of `list_templates`. */
  datatype Listing = Listing(id: string, name: Json, nameAr: Json, version: Json)

  // ------------------------------------------------------------ the store

  class TemplateExtractor {
    /** The template ids in insertion order, and the dict they key. */
    var ids: seq<string>
    var templates: map<string, Template>

    ghost predicate Valid()
      reads this
    {
      DictShape(ids, templates)
    }

    constructor ()
      ensures ids == [] && templates == map[] && Valid()
    {
      ids := [];
      templates := map[];
    }

    /** `self.templates[template_id] = template` */
    method Put(id: string, t: Template)
      requires Valid()
      modifies this
      ensures (ids, templates) == InsertKey(old(ids), old(templates), id, t)
      ensures Valid()
    {
      InsertKeyShape(ids, templates, id, t);
      if id !in templates {
        ids := ids + [id];
      }
      templates := templates[id := t];
    }

    /** `extract_regions`: the crops of a known template, ValueError for an unknown id. */
    method ExtractRegions(H: nat, W: nat, id: string) returns (r: Result<Crops>)
      ensures r == Extract(templates, id, H, W)
    {
      if id !in templates {
        return Failure(ValueError("Unknown template: " + id));
      }
      var regions := templates[id].regions;
      var keys: seq<string> := [];
      var rois: map<string, Roi> := map[];
      for i := 0 to |regions|
        invariant CropsOf(regions[..i], H, W) == Success(Crops(keys, rois))
      {
        assert regions[..i + 1][..i] == regions[..i];
        var roi := RoiOf(regions[i], H, W);
        if roi.Failure? {
          CropsFailureStays(regions, H, W, i + 1);
          return Failure(roi.error);
        }
        if NonEmpty(roi.value) {
          var key := KeyOf(regions[i]);
          if key !in rois {
            keys := keys + [key];
          }
          rois := rois[key := roi.value];
        }
      }
      assert regions[..|regions|] == regions;
      r := Success(Crops(keys, rois));
    }

    /** `get_template_info`: None for an unknown id. */
    function GetTemplateInfo(id: string): (r: Option<Info>)
      reads this
      ensures r.None? <==> id !in templates
      ensures r.Some? ==>
        && r.value.regionsCount == |templates[id].regions|
        && r.value.name == templates[id].name && r.value.version == templates[id].version
    {
      if id !in templates then None
      else
        var t := templates[id];
        Some(Info(t.name, t.nameAr, t.version, t.requiredFields, |t.regions|))
    }

    /** `list_templates`: one listing per template, in the dict's order. */
    function ListTemplates(): (r: seq<Listing>)
      requires Valid()
      reads this
      ensures |r| == |ids|
      ensures forall i :: 0 <= i < |r| ==> ListingOf(r[i], ids[i], templates)
      ensures forall i, j :: 0 <= i < j < |r| ==> r[i].id != r[j].id
    {
      Listings(ids, templates)
    }
  }

  /** The listing shows the template stored under `id`. */
  predicate ListingOf(l: Listing, id: string, m: map<string, Template>) {
    && l.id == id && id in m
    && l.name == m[id].name && l.nameAr == m[id].nameAr && l.version == m[id].version
  }

  function Listings(ids: seq<string>, m: map<string, Template>): (r: seq<Listing>)
    requires forall k :: k in ids ==> k in m
    ensures |r| == |ids|
    ensures forall i :: 0 <= i < |r| ==> ListingOf(r[i], ids[i], m)
  {
    if ids == [] then []
    else
      var t := m[ids[0]];
      [Listing(ids[0], t.name, t.nameAr, t.version)] + Listings(ids[1..], m)
  }

  // ------------------------------------------------------------ what loading yields

  /** The (section, name) pair a region was read under. */
  function Placement(r: TemplateRegion): (string, string) { (r.section, r.name) }

  /** The (section, name) pairs of one section, in the order of its fields. */
  function SectionPairs(sec: (string, Json)): seq<(string, string)>
  {
    if sec.1.JObj? then seq(|sec.1.fields|, i requires 0 <= i < |sec.1.fields| => (sec.0, sec.1.fields[i].0)) else []
  }

  /** All (section, name) pairs, section by section. */
  function Pairs(secs: seq<(string, Json)>): seq<(string, string)>
  {
    if secs == [] then [] else Pairs(secs[..|secs| - 1]) + SectionPairs(secs[|secs| - 1])
  }

  /** A section yields one region per field, named after the field. */
  lemma {:induction false} SectionRegionsShape(section: string, fields: seq<(string, Json)>)
    requires SectionRegions(section, fields).Success?
    ensures var rs := SectionRegions(section, fields).value;
      && |rs| == |fields|
      && forall i :: 0 <= i < |fields| ==>
        rs[i].section == section && rs[i].name == fields[i].0
  {
    if fields != [] {
      var init := fields[..|fields| - 1];
      SectionRegionsShape(section, init);
      assert forall i :: 0 <= i < |init| ==> init[i] == fields[i];
    }
  }

  /** Loading yields one region per (section, name) pair, in section-then-name order. */
  lemma {:induction false} RegionsPairs(secs: seq<(string, Json)>)
    requires SectionsRegions(secs).Success?
    ensures Map(SectionsRegions(secs).value, Placement) == Pairs(secs)
  {
    if secs != [] {
      var init, last := secs[..|secs| - 1], secs[|secs| - 1];
      RegionsPairs(init);
      var more := SectionOf(last).value;
      SectionRegionsShape(last.0, last.1.fields);
      MapAppend(SectionsRegions(init).value, more, Placement);
      assert Map(more, Placement) == SectionPairs(last);
    }
  }

  /** Every failure of the crop loop is a TypeError from a coordinate that is not a number. */
  lemma {:induction false} CropsErrors(regions: seq<TemplateRegion>, H: nat, W: nat)
    ensures CropsOf(regions, H, W).Failure? ==> CropsOf(regions, H, W).error.TypeError?
  {
    if regions != [] {
      CropsErrors(regions[..|regions| - 1], H, W);
    }
  }

  /** `extract_regions` raises ValueError exactly for an unknown template id. */
  lemma ExtractUnknown(templates: map<string, Template>, id: string, H: nat, W: nat)
    ensures (Extract(templates, id, H, W).Failure? && Extract(templates, id, H, W).error.ValueError?) <==> id !in templates
  {
    if id in templates {
      CropsErrors(templates[id].regions, H, W);
    }
  }

  /**
   * The crops dict lists each key once, every region's corners could be
   * computed, and every crop it holds is non-empty and inside the image.
   */
  lemma {:induction false} CropsShape(regions: seq<TemplateRegion>, H: nat, W: nat)
    requires CropsOf(regions, H, W).Success?
    ensures var cs := CropsOf(regions, H, W).value;
      && DictShape(cs.keys, cs.rois)
      && (forall i :: 0 <= i < |regions| ==> RoiOf(regions[i], H, W).Success?)
      && forall k :: k in cs.rois ==> NonEmpty(cs.rois[k]) && cs.rois[k].bottom <= H && cs.rois[k].right <= W
  {
    if regions != [] {
      var init := regions[..|regions| - 1];
      CropsShape(init, H, W);
      assert forall i :: 0 <= i < |init| ==> init[i] == regions[i];
      var prev := CropsOf(init, H, W).value;
      var r := regions[|regions| - 1];
      var roi := RoiOf(r, H, W).value;
      if NonEmpty(roi) {
        InsertKeyShape(prev.keys, prev.rois, KeyOf(r), roi);
      }
    }
  }

  /** The region of interest a region cuts, once the loop has computed it. */
  predicate Cuts(r: TemplateRegion, H: nat, W: nat) {
    var roi := RoiOf(r, H, W);
    roi.Success? && NonEmpty(roi.value)
  }

  /** The last region adds its key exactly when it cuts a non-empty slice. */
  lemma CropsStep(regions: seq<TemplateRegion>, H: nat, W: nat)
    requires regions != [] && CropsOf(regions, H, W).Success?
    ensures var init, last := regions[..|regions| - 1], regions[|regions| - 1];
      && CropsOf(init, H, W).Success?
      && forall k :: k in CropsOf(regions, H, W).value.rois <==>
        k in CropsOf(init, H, W).value.rois || (KeyOf(last) == k && Cuts(last, H, W))
  {
  }

  /** Some region under key `k` cuts a non-empty slice. */
  predicate HasCut(regions: seq<TemplateRegion>, k: string, H: nat, W: nat) {
    exists i :: 0 <= i < |regions| && KeyOf(regions[i]) == k && Cuts(regions[i], H, W)
  }

  lemma HasCutSnoc(regions: seq<TemplateRegion>, k: string, H: nat, W: nat)
    requires regions != []
    ensures var init, last := regions[..|regions| - 1], regions[|regions| - 1];
      HasCut(regions, k, H, W) <==> HasCut(init, k, H, W) || (KeyOf(last) == k && Cuts(last, H, W))
  {
    var init := regions[..|regions| - 1];
    if HasCut(regions, k, H, W) {
      var i :| 0 <= i < |regions| && KeyOf(regions[i]) == k && Cuts(regions[i], H, W);
      if i < |init| {
        assert init[i] == regions[i];
      }
    }
    if HasCut(init, k, H, W) {
      var i :| 0 <= i < |init| && KeyOf(init[i]) == k && Cuts(init[i], H, W);
      assert regions[i] == init[i];
    }
  }

  /** The crops dict holds a key exactly when some region under that key cuts a non-empty slice. */
  lemma {:induction false} CropsKeys(regions: seq<TemplateRegion>, H: nat, W: nat)
    requires CropsOf(regions, H, W).Success?
    ensures forall k :: k in CropsOf(regions, H, W).value.rois <==> HasCut(regions, k, H, W)
  {
    if regions != [] {
      var init := regions[..|regions| - 1];
      CropsKeys(init, H, W);
      CropsStep(regions, H, W);
      forall k ensures k in CropsOf(regions, H, W).value.rois <==> HasCut(regions, k, H, W) {
        HasCutSnoc(regions, k, H, W);
      }
    }
  }

  /**
   * With non-negative corners the slice is non-empty exactly when
   * x1 < min(x2, W) and y1 < min(y2, H).
   */
  lemma RoiNonEmptyIff(r: TemplateRegion, H: nat, W: nat)
    requires CornersOf(r, H, W).Success?
    requires var c := CornersOf(r, H, W).value; c.0 >= 0 && c.1 >= 0 && c.2 >= 0 && c.3 >= 0
    ensures var c := CornersOf(r, H, W).value;
      NonEmpty(RoiOf(r, H, W).value) <==> c.0 < TE.MinInt(c.2, W) && c.1 < TE.MinInt(c.3, H)
  {
  }

  // ------------------------------------------------------------ the loops as methods

  /** The nested loops of `_load_templates` that build one template's region list. */
  method ReadRegions(regions: Json) returns (r: Result<seq<TemplateRegion>>)
    ensures r == RegionsOf(regions)
  {
    var items := Items(regions);
    if items.Failure? {
      return Failure(items.error);
    }
    var secs := items.value;
    var out: seq<TemplateRegion> := [];
    for i := 0 to |secs|
      invariant SectionsRegions(secs[..i]) == Success(out)
    {
      assert secs[..i + 1][..i] == secs[..i];
      var section := secs[i].0;
      var data := Items(secs[i].1);
      if data.Failure? {
        SectionsFailureStays(secs, i + 1);
        return Failure(data.error);
      }
      var fields := data.value;
      ghost var before := out;
      ghost var inner: seq<TemplateRegion> := [];
      for j := 0 to |fields|
        invariant SectionRegions(section, fields[..j]) == Success(inner)
        invariant out == before + inner
      {
        assert fields[..j + 1][..j] == fields[..j];
        var reg := RegionOf(section, fields[j].0, fields[j].1);
        if reg.Failure? {
          SectionFailureStays(section, fields, j + 1);
          SectionsFailureStays(secs, i + 1);
          return Failure(reg.error);
        }
        out := out + [reg.value];
        inner := inner + [reg.value];
      }
      assert fields[..|fields|] == fields;
    }
    assert secs[..|secs|] == secs;
    r := Success(out);
  }

  /** One template: the region loops, then the remaining keys. */
  method ReadTemplate(data: Json) returns (r: Result<Template>)
    ensures r == TemplateOf(data)
  {
    var rj := Index(data, "regions");
    if rj.Failure? {
      return Failure(rj.error);
    }
    var regions := ReadRegions(rj.value);
    if regions.Failure? {
      return Failure(regions.error);
    }
    var name := Index(data, "name");
    if name.Failure? {
      return Failure(name.error);
    }
    var nameAr := Index(data, "name_ar");
    if nameAr.Failure? {
      return Failure(nameAr.error);
    }
    var version := Index(data, "template_version");
    if version.Failure? {
      return Failure(version.error);
    }
    var req := Index(data, "required_fields");
    if req.Failure? {
      return Failure(req.error);
    }
    r := Success(Template(name.value, nameAr.value, version.value, regions.value, req.value));
  }

  /** `TemplateExtractor(templates_path)`: a store holding the loaded templates, or the load's RuntimeError. */
  method Load(raw: Option<Json>) returns (r: Result<TemplateExtractor>)
    ensures r.Failure? <==> LoadAll(raw).Failure?
    ensures r.Failure? ==> r.error == LoadError
    ensures r.Success? ==>
      && fresh(r.value) && r.value.Valid()
      && (r.value.ids, r.value.templates) == Stored(LoadAll(raw).value)
  {
    if raw.None? || !raw.value.JObj? {
      return Failure(LoadError);
    }
    var entries := raw.value.fields;
    var store := new TemplateExtractor();
    ghost var loaded: seq<(string, Template)> := [];
    for i := 0 to |entries|
      invariant TemplatesOf(entries[..i]) == Success(loaded)
      invariant store.Valid() && (store.ids, store.templates) == Stored(loaded)
    {
      var t := ReadTemplate(entries[i].1);
      if t.Failure? {
        TemplatesFailureStays(entries, i + 1);
        return Failure(LoadError);
      }
      store.Put(entries[i].0, t.value);
      LoadStep(entries, i, loaded, t.value);
      loaded := loaded + [(entries[i].0, t.value)];
    }
    assert entries[..|entries|] == entries;
    r := Success(store);
  }

  /** One more template read extends the load and the dict. */
  lemma LoadStep(entries: seq<(string, Json)>, i: nat, loaded: seq<(string, Template)>, t: Template)
    requires i < |entries| && TemplatesOf(entries[..i]) == Success(loaded) && TemplateOf(entries[i].1) == Success(t)
    ensures TemplatesOf(entries[..i + 1]) == Success(loaded + [(entries[i].0, t)])
    ensures var prev := Stored(loaded);
      Stored(loaded + [(entries[i].0, t)]) == InsertKey(prev.0, prev.1, entries[i].0, t)
  {
    assert entries[..i + 1][..i] == entries[..i];
    assert (loaded + [(entries[i].0, t)])[..|loaded|] == loaded;
  }

  // ------------------------------------------------------------ failures stay

  lemma {:induction false} SectionFailureStays(section: string, fields: seq<(string, Json)>, n: nat)
    requires n <= |fields| && SectionRegions(section, fields[..n]).Failure?
    ensures SectionRegions(section, fields) == SectionRegions(section, fields[..n])
  {
    if n < |fields| {
      assert fields[..|fields| - 1][..n] == fields[..n];
      SectionFailureStays(section, fields[..|fields| - 1], n);
    } else {
      assert fields[..n] == fields;
    }
  }

  lemma {:induction false} SectionsFailureStays(secs: seq<(string, Json)>, n: nat)
    requires n <= |secs| && SectionsRegions(secs[..n]).Failure?
    ensures SectionsRegions(secs) == SectionsRegions(secs[..n])
  {
    if n < |secs| {
      assert secs[..|secs| - 1][..n] == secs[..n];
      SectionsFailureStays(secs[..|secs| - 1], n);
    } else {
      assert secs[..n] == secs;
    }
  }

  lemma {:induction false} TemplatesFailureStays(entries: seq<(string, Json)>, n: nat)
    requires n <= |entries| && TemplatesOf(entries[..n]).Failure?
    ensures TemplatesOf(entries) == TemplatesOf(entries[..n])
  {
    if n < |entries| {
      assert entries[..|entries| - 1][..n] == entries[..n];
      TemplatesFailureStays(entries[..|entries| - 1], n);
    } else {
      assert entries[..n] == entries;
    }
  }

  lemma {:induction false} CropsFailureStays(regions: seq<TemplateRegion>, H: nat, W: nat, n: nat)
    requires n <= |regions| && CropsOf(regions[..n], H, W).Failure?
    ensures CropsOf(regions, H, W) == CropsOf(regions[..n], H, W)
  {
    if n < |regions| {
      assert regions[..|regions| - 1][..n] == regions[..n];
      CropsFailureStays(regions[..|regions| - 1], H, W, n);
    } else {
      assert regions[..n] == regions;
    }
  }
}
