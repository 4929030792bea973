/**
 * Reading order of OCR tokens: every token is normalised to a dict with a
 * text, a language and an integer box, and the tokens are then laid out line
 * by line. A line is the set of tokens with the same `y // max(1, h)`; lines
 * come top to bottom, and inside a line tokens run left to right, or right
 * to left when most of the line is Arabic.
 */
module ReadingOrder {
  import opened Outcomes
  import opened Chars
  import opened PyValues
  import opened Sorting
  import opened OcrBase

  // ------------------------------------------------------- normalisation

  /** What `_normalize_item` may receive: an OCRResult, a dict, or any other value (with its `str()`). */
  datatype Raw = FromResult(r: OCRResult) | FromDict(d: Dict) | Other(repr: string)

  /** A normalised token: `{'text', 'language', 'bbox': [x, y, w, h]}`. */
  datatype Item = Item(text: Value, language: Value, x: int, y: int, w: int, h: int)

  const UnitBox: seq<Value> := [VInt(0), VInt(0), VInt(1), VInt(1)]

  /** A box value `_normalize_item` accepts: a list or tuple of four values. */
  predicate IsFourBox(v: Value) {
    (v.VList? || v.VTuple?) && |v.items| == 4
  }

  /** The box of an OCRResult: its bbox when it is truthy and has four values, else (0, 0, 1, 1). */
  function ResultBox(r: OCRResult): (box: seq<Value>)
    ensures |box| == 4
  {
    if r.bbox.Some? && |r.bbox.value| == 4 then r.bbox.value else UnitBox
  }

  /**
   * The box of a dict: its "bbox" entry when truthy, else its "bounding_box"
   * entry when truthy; it is kept when it is a list or tuple of four values,
   * and is [0, 0, 1, 1] otherwise.
   */
  function DictBox(d: Dict): (box: seq<Value>)
    ensures |box| == 4
  {
    var b := if Truthy(Get(d, "bbox", VNone)) then Get(d, "bbox", VNone)
             else if Truthy(Get(d, "bounding_box", VNone)) then Get(d, "bounding_box", VNone)
             else VList(UnitBox);
    if IsFourBox(b) then b.items else UnitBox
  }

  /** `[int(x), int(y), int(w), int(h)]`, raising at the first value `int()` refuses. */
  function BoxItem(text: Value, language: Value, box: seq<Value>): (r: Result<Item>)
    requires |box| == 4
  {
    match ToInt(box[0])
    case Failure(e) => Failure(e)
    case Success(x) =>
      match ToInt(box[1])
      case Failure(e) => Failure(e)
      case Success(y) =>
        match ToInt(box[2])
        case Failure(e) => Failure(e)
        case Success(w) =>
          match ToInt(box[3])
          case Failure(e) => Failure(e)
          case Success(h) => Success(Item(text, language, x, y, w, h))
  }

  /** The text and language `_normalize_item` gives each kind of input. */
  function TextOf(raw: Raw): Value
  {
    match raw
    case FromResult(r) => VStr(r.text)
    case FromDict(d) => Get(d, "text", VStr(""))
    case Other(repr) => VStr(repr)
  }

  function LanguageOf(raw: Raw): Value
  {
    match raw
    case FromResult(r) => r.lang
    case FromDict(d) => Get(d, "language", Get(d, "lang", VStr("french")))
    case Other(_) => VStr("french")
  }

  function BoxOf(raw: Raw): (box: seq<Value>)
    ensures |box| == 4
  {
    match raw
    case FromResult(r) => ResultBox(r)
    case FromDict(d) => DictBox(d)
    case Other(_) => UnitBox
  }

  /** `_normalize_item`. */
  function NormalizeItem(raw: Raw): Result<Item>
  {
    match raw
    case FromResult(r) => BoxItem(VStr(r.text), r.lang, ResultBox(r))
    case FromDict(d) =>
      BoxItem(Get(d, "text", VStr("")), Get(d, "language", Get(d, "lang", VStr("french"))), DictBox(d))
    case Other(repr) => Success(Item(VStr(repr), VStr("french"), 0, 0, 1, 1))
  }

  /**
   * The normalised item carries the input's text and language and the four
   * integers of its box; it raises exactly when `int()` refuses one of the
   * four box values, with that value's TypeError or ValueError.
   */
  lemma NormalizeItemSpec(raw: Raw)
    ensures NormalizeItem(raw).Success? <==> forall i :: 0 <= i < 4 ==> ToInt(BoxOf(raw)[i]).Success?
    ensures NormalizeItem(raw).Success? ==>
      var it := NormalizeItem(raw).value;
      && it.text == TextOf(raw) && it.language == LanguageOf(raw)
      && ToInt(BoxOf(raw)[0]) == Success(it.x) && ToInt(BoxOf(raw)[1]) == Success(it.y)
      && ToInt(BoxOf(raw)[2]) == Success(it.w) && ToInt(BoxOf(raw)[3]) == Success(it.h)
    ensures NormalizeItem(raw).Failure? ==>
      NormalizeItem(raw).error.TypeError? || NormalizeItem(raw).error.ValueError?
  {
    var box := BoxOf(raw);
    assert NormalizeItem(raw) == BoxItem(TextOf(raw), LanguageOf(raw), box);
    forall v: Value ensures ToInt(v).Failure? ==> ToInt(v).error.TypeError? || ToInt(v).error.ValueError? {
    }
  }

  /**
   * A missing or malformed box becomes (0, 0, 1, 1): a dict whose "bbox" and
   * "bounding_box" entries are both falsy, or whose chosen entry is not a
   * list or tuple of four values, and an OCRResult whose bbox is missing or
   * not of four values. Any other input is its `str()` in French.
   */
  lemma NormalizeItemDefaults(raw: Raw)
    ensures raw.FromDict? ==>
      var d := raw.d;
      var b := if Truthy(Get(d, "bbox", VNone)) then Get(d, "bbox", VNone) else Get(d, "bounding_box", VNone);
      !IsFourBox(b) ==> BoxOf(raw) == UnitBox
    ensures raw.FromDict? ==>
      LanguageOf(raw) == (if "language" in raw.d then raw.d["language"]
                          else if "lang" in raw.d then raw.d["lang"] else VStr("french"))
    ensures raw.FromResult? && (raw.r.bbox.None? || |raw.r.bbox.value| != 4) ==> BoxOf(raw) == UnitBox
    ensures raw.Other? ==> NormalizeItem(raw) == Success(Item(VStr(raw.repr), VStr("french"), 0, 0, 1, 1))
    ensures BoxOf(raw) == UnitBox ==>
      && NormalizeItem(raw).Success?
      && NormalizeItem(raw).value.x == 0 && NormalizeItem(raw).value.y == 0
      && NormalizeItem(raw).value.w == 1 && NormalizeItem(raw).value.h == 1
  {
  }

  /** `[_normalize_item(x) for x in items]`: raises at the first item that raises. */
  function NormalizeAll(items: seq<Raw>): Result<seq<Item>>
  {
    if items == [] then Success([])
    else
      match NormalizeItem(items[0])
      case Failure(e) => Failure(e)
      case Success(first) =>
        match NormalizeAll(items[1..])
        case Failure(e) => Failure(e)
        case Success(rest) => Success([first] + rest)
  }

  /**
   * The comprehension succeeds exactly when every item normalises, and then
   * holds each item's normalisation at the item's index; otherwise it raises
   * what the first item that raises raises.
   */
  lemma {:induction false} NormalizeAllSpec(items: seq<Raw>)
    ensures NormalizeAll(items).Success? <==> forall i :: 0 <= i < |items| ==> NormalizeItem(items[i]).Success?
    ensures NormalizeAll(items).Success? ==>
      var r := NormalizeAll(items).value;
      |r| == |items| && forall i :: 0 <= i < |items| ==> NormalizeItem(items[i]) == Success(r[i])
    ensures NormalizeAll(items).Failure? ==>
      exists i :: 0 <= i < |items| && FirstRaise(items, i, NormalizeAll(items).error)
  {
    if items != [] {
      var rest := items[1..];
      NormalizeAllSpec(rest);
      assert forall i :: 1 <= i < |items| ==> items[i] == rest[i - 1];
      if NormalizeItem(items[0]).Failure? {
        assert FirstRaise(items, 0, NormalizeAll(items).error);
      } else if NormalizeAll(rest).Failure? {
        var i :| 0 <= i < |rest| && FirstRaise(rest, i, NormalizeAll(rest).error);
        assert FirstRaise(items, i + 1, NormalizeAll(items).error);
      }
    }
  }

  /** Item `i` is the first to raise, and it raises `e`. */
  predicate FirstRaise(items: seq<Raw>, i: nat, e: Error)
    requires i < |items|
  {
    NormalizeItem(items[i]) == Failure(e) && forall j :: 0 <= j < i ==> NormalizeItem(items[j]).Success?
  }

  // ------------------------------------------------------------- flatten

  /** What `flatten_results` may receive: a dict (its values in order, None for a non-list value), a list, or anything else. */
  datatype Results = Keyed(values: seq<Option<seq<Raw>>>) | Listed(items: seq<Raw>) | Unlisted

  /** The list-valued entries of a dict, one after the other. */
  function ListValues(values: seq<Option<seq<Raw>>>): seq<Raw>
  {
    if values == [] then []
    else
      var last := values[|values| - 1];
      ListValues(values[..|values| - 1]) + (if last.Some? then last.value else [])
  }

  /** Each entry contributes its list, in order, and a non-list entry contributes nothing. */
  lemma {:induction false} ListValuesAppend(a: seq<Option<seq<Raw>>>, b: seq<Option<seq<Raw>>>)
    ensures ListValues(a + b) == ListValues(a) + ListValues(b)
    ensures ListValues([]) == [] && ListValues([None]) == []
    ensures forall l :: ListValues([Some(l)]) == l
  {
    assert forall l: seq<Raw> :: [Some(l)][..0] == [];
    if b == [] {
      assert a + b == a;
    } else {
      var init := b[..|b| - 1];
      ListValuesAppend(a, init);
      assert (a + b)[..|a + b| - 1] == a + init;
      assert (a + b)[|a + b| - 1] == b[|b| - 1];
    }
  }

  /** `flatten_results`. */
  method FlattenResults(results: Results) returns (r: Result<seq<Item>>)
    ensures results.Keyed? ==> r == NormalizeAll(ListValues(results.values))
    ensures results.Listed? ==> r == NormalizeAll(results.items)
    ensures results.Unlisted? ==> r == Success([])
  {
    match results
    case Keyed(values) =>
      var items: seq<Raw> := [];
      for i := 0 to |values|
        invariant items == ListValues(values[..i])
      {
        assert values[..i + 1][..i] == values[..i];
        if values[i].Some? {
          items := items + values[i].value;
        }
      }
      assert values[..|values|] == values;
      r := NormalizeAll(items);
    case Listed(items) =>
      r := NormalizeAll(items);
    case Unlisted =>
      r := Success([]);
  }

  // -------------------------------------------------------------- lines

  function MaxOne(h: int): int { if h >= 1 then h else 1 }

  /** `int(y // max(1, h))`: the line an item belongs to (floor division, as the divisor is positive). */
  function LineKey(it: Item): int { it.y / MaxOne(it.h) }

  function KeyIs(k: int): Item -> bool { (it: Item) => LineKey(it) == k }

  /** `str(language).lower().startswith('arab')`. */
  predicate IsArab(it: Item) {
    it.language.VStr? && StartsWith(LowerStr(it.language.s), "arab")
  }

  function ArabTest(): Item -> bool { (it: Item) => IsArab(it) }

  /** `arabic_cnt > len(line) / 2`: more than half of the line is Arabic. */
  predicate RightToLeft(line: seq<Item>) {
    |Filter(line, ArabTest())| as real > |line| as real / 2.0
  }

  function XAscending(): (Item, Item) -> bool { (a: Item, b: Item) => a.x <= b.x }

  function XDescending(): (Item, Item) -> bool { (a: Item, b: Item) => a.x >= b.x }

  function LineOrder(line: seq<Item>): (Item, Item) -> bool {
    if RightToLeft(line) then XDescending() else XAscending()
  }

  /** `line.sort(key=x, reverse=rtl)`: a stable sort by x, descending for a right-to-left line. */
  function SortLine(line: seq<Item>): seq<Item>
  {
    SortBy(line, LineOrder(line))
  }

  /** The line keys in order of first appearance, as the `lines` dict holds them. */
  function KeysOf(items: seq<Item>): seq<int>
  {
    if items == [] then []
    else
      var ks := KeysOf(items[..|items| - 1]);
      var k := LineKey(items[|items| - 1]);
      if k in ks then ks else ks + [k]
  }

  function IntLe(a: int, b: int): bool { a <= b }

  /** The items of each listed line, each line sorted, one line after the other. */
  function Lines(items: seq<Item>, ks: seq<int>): seq<Item>
  {
    if ks == [] then []
    else Lines(items, ks[..|ks| - 1]) + SortLine(Filter(items, KeyIs(ks[|ks| - 1])))
  }

  /** `sort_for_reading`: the lines in ascending key order. */
  function ReadingOrder(items: seq<Item>): seq<Item>
  {
    Lines(items, SortBy(KeysOf(items), IntLe))
  }

  /** What the first loop of `sort_for_reading` knows after the items `done`: each line holds its items in order. */
  ghost predicate Grouped(done: seq<Item>, lines: map<int, seq<Item>>, keys: seq<int>) {
    && keys == KeysOf(done)
    && (forall k :: k in lines <==> k in keys)
    && (forall k :: k in lines ==> lines[k] == Filter(done, KeyIs(k)))
  }

  /** The loops of `sort_for_reading`: group by line key, then emit the sorted lines by ascending key. */
  method SortForReading(items: seq<Item>) returns (ordered: seq<Item>)
    ensures ordered == ReadingOrder(items)
  {
    var lines: map<int, seq<Item>> := map[];
    var keys: seq<int> := [];
    for i := 0 to |items|
      invariant Grouped(items[..i], lines, keys)
    {
      lines, keys := Group(items, i, lines, keys);
    }
    assert items[..|items|] == items;
    var sortedKeys := SortBy(keys, IntLe);
    ordered := [];
    for j := 0 to |sortedKeys|
      invariant ordered == Lines(items, sortedKeys[..j])
    {
      var key := sortedKeys[j];
      SortedKeyListed(keys, j);
      LinesStep(items, sortedKeys, j);
      ordered := ordered + SortLine(lines[key]);
    }
    assert sortedKeys[..|sortedKeys|] == sortedKeys;
  }

  /** One turn of the grouping loop: item `i` is appended to the line of its key, which is created when new. */
  method Group(items: seq<Item>, i: nat, lines: map<int, seq<Item>>, keys: seq<int>)
      returns (lines': map<int, seq<Item>>, keys': seq<int>)
    requires i < |items| && Grouped(items[..i], lines, keys)
    ensures Grouped(items[..i + 1], lines', keys')
  {
    var it := items[i];
    var key := LineKey(it);
    assert items[..i + 1][..i] == items[..i];
    forall k ensures Filter(items[..i + 1], KeyIs(k)) == Filter(items[..i], KeyIs(k)) + (if k == key then [it] else []) {
      FilterSnoc(items, i, KeyIs(k));
    }
    lines', keys' := lines, keys;
    if key !in lines' {
      FilterNoKey(items[..i], key);
      lines' := lines'[key := []];
      keys' := keys' + [key];
    }
    lines' := lines'[key := lines'[key] + [it]];
  }

  /** Every sorted key is a key of the grouping. */
  lemma SortedKeyListed(keys: seq<int>, j: nat)
    requires j < |SortBy(keys, IntLe)|
    ensures SortBy(keys, IntLe)[j] in keys
  {
    assert SortBy(keys, IntLe)[j] in multiset(SortBy(keys, IntLe));
  }

  lemma LinesStep(items: seq<Item>, ks: seq<int>, j: nat)
    requires j < |ks|
    ensures Lines(items, ks[..j + 1]) == Lines(items, ks[..j]) + SortLine(Filter(items, KeyIs(ks[j])))
  {
    assert ks[..j + 1][..j] == ks[..j];
  }

  /** A key no item has so far has an empty line. */
  lemma FilterNoKey(items: seq<Item>, key: int)
    requires key !in KeysOf(items)
    ensures Filter(items, KeyIs(key)) == []
  {
    forall it | it in items ensures !KeyIs(key)(it) {
      KeysOfComplete(items, it);
    }
    FilterNone(items, KeyIs(key));
  }

  /** Every item's key is listed. */
  lemma {:induction false} KeysOfComplete(items: seq<Item>, it: Item)
    requires it in items
    ensures LineKey(it) in KeysOf(items)
  {
    var init := items[..|items| - 1];
    if it != items[|items| - 1] {
      assert it in init by {
        var i :| 0 <= i < |items| && items[i] == it;
        assert init[i] == it;
      }
      KeysOfComplete(init, it);
    }
  }

  // ---------------------------------------------------------- properties

  /** The keys are listed once each, and only keys of some item are listed. */
  lemma {:induction false} KeysOfSound(items: seq<Item>)
    ensures Distinct(KeysOf(items))
    ensures forall k :: k in KeysOf(items) ==> exists i :: 0 <= i < |items| && LineKey(items[i]) == k
  {
    if items != [] {
      var init := items[..|items| - 1];
      KeysOfSound(init);
      forall k | k in KeysOf(items) ensures exists i :: 0 <= i < |items| && LineKey(items[i]) == k {
        if k in KeysOf(init) {
          var i :| 0 <= i < |init| && LineKey(init[i]) == k;
          assert items[i] == init[i];
        } else {
          assert LineKey(items[|items| - 1]) == k;
        }
      }
    }
  }

  lemma IntLeTotal()
    ensures TotalOrder(IntLe)
  {
  }

  /** The sorted keys: ascending, each once, exactly the keys of the items. */
  lemma SortedKeys(items: seq<Item>)
    ensures var ks := SortBy(KeysOf(items), IntLe);
      && SortedBy(ks, IntLe) && Distinct(ks)
      && forall it :: it in items ==> LineKey(it) in ks
  {
    var keys := KeysOf(items);
    var ks := SortBy(keys, IntLe);
    IntLeTotal();
    SortBySorted(keys, IntLe);
    KeysOfSound(items);
    DistinctCounts(keys);
    CountsDistinct(ks);
    forall it | it in items ensures LineKey(it) in ks {
      KeysOfComplete(items, it);
      assert LineKey(it) in multiset(keys);
    }
  }

  /** Every item of a sorted line has that line's key. */
  lemma LineHasKey(items: seq<Item>, k: int)
    ensures forall x :: x in SortLine(Filter(items, KeyIs(k))) ==> LineKey(x) == k
  {
    FilterPasses(items, KeyIs(k));
    forall x | x in SortLine(Filter(items, KeyIs(k))) ensures LineKey(x) == k {
      assert x in multiset(SortLine(Filter(items, KeyIs(k))));
    }
  }

  function InKeys(ks: seq<int>): Item -> bool { (it: Item) => LineKey(it) in ks }

  /** The listed lines hold, between them, exactly the items whose key is listed. */
  lemma {:induction false} LinesMultiset(items: seq<Item>, ks: seq<int>)
    requires Distinct(ks)
    ensures multiset(Lines(items, ks)) == multiset(Filter(items, InKeys(ks)))
  {
    if ks == [] {
      FilterNone(items, InKeys(ks));
    } else {
      var init, last := ks[..|ks| - 1], ks[|ks| - 1];
      assert ks == init + [last];
      LinesMultiset(items, init);
      FilterUnion(items, InKeys(init), KeyIs(last), InKeys(ks));
    }
  }

  /** `sort_for_reading` returns a permutation of its input. */
  lemma ReadingOrderPermutation(items: seq<Item>)
    ensures multiset(ReadingOrder(items)) == multiset(items)
  {
    var ks := SortBy(KeysOf(items), IntLe);
    SortedKeys(items);
    LinesMultiset(items, ks);
    FilterAll(items, InKeys(ks));
  }

  /** Every item of the listed lines has a listed key. */
  lemma {:induction false} LinesKeys(items: seq<Item>, ks: seq<int>)
    ensures forall x :: x in Lines(items, ks) ==> LineKey(x) in ks
  {
    if ks != [] {
      var init, last := ks[..|ks| - 1], ks[|ks| - 1];
      LinesKeys(items, init);
      LineHasKey(items, last);
      forall x | x in Lines(items, ks) ensures LineKey(x) in ks {
        if x in Lines(items, init) {
          assert LineKey(x) in init;
        }
      }
    }
  }

  /** Line keys never decrease along `s`. */
  predicate KeysAscending(s: seq<Item>) {
    forall i, j :: 0 <= i < j < |s| ==> LineKey(s[i]) <= LineKey(s[j])
  }

  /** Appending items of key `k` after items of keys at most `k` keeps keys ascending. */
  lemma AppendAscending(a: seq<Item>, b: seq<Item>, k: int)
    requires KeysAscending(a)
    requires forall x :: x in a ==> LineKey(x) <= k
    requires forall x :: x in b ==> LineKey(x) == k
    ensures KeysAscending(a + b)
  {
    var out := a + b;
    forall i, j | 0 <= i < j < |out| ensures LineKey(out[i]) <= LineKey(out[j]) {
      if j >= |a| {
        assert out[j] == b[j - |a|];
        if i >= |a| {
          assert out[i] == b[i - |a|];
        } else {
          assert out[i] == a[i];
        }
      }
    }
  }

  /** Every listed key before the last of an ascending key list is at most the last. */
  lemma KeysBelowLast(items: seq<Item>, ks: seq<int>)
    requires ks != [] && SortedBy(ks, IntLe)
    ensures forall x :: x in Lines(items, ks[..|ks| - 1]) ==> LineKey(x) <= ks[|ks| - 1]
  {
    var init, last := ks[..|ks| - 1], ks[|ks| - 1];
    LinesKeys(items, init);
    forall x | x in Lines(items, init) ensures LineKey(x) <= last {
      var i :| 0 <= i < |init| && init[i] == LineKey(x);
      assert IntLe(ks[i], ks[|ks| - 1]);
    }
  }

  /** Lines for ascending keys are laid out with ascending keys. */
  lemma {:induction false} LinesAscending(items: seq<Item>, ks: seq<int>)
    requires SortedBy(ks, IntLe)
    ensures KeysAscending(Lines(items, ks))
  {
    if ks != [] {
      var init, last := ks[..|ks| - 1], ks[|ks| - 1];
      assert SortedBy(init, IntLe);
      LinesAscending(items, init);
      KeysBelowLast(items, ks);
      LineHasKey(items, last);
      AppendAscending(Lines(items, init), SortLine(Filter(items, KeyIs(last))), last);
    }
  }

  /** `sort_for_reading` emits the lines top to bottom: line keys never decrease. */
  lemma ReadingOrderAscending(items: seq<Item>)
    ensures var out := ReadingOrder(items);
      forall i, j :: 0 <= i < j < |out| ==> LineKey(out[i]) <= LineKey(out[j])
  {
    SortedKeys(items);
    LinesAscending(items, SortBy(KeysOf(items), IntLe));
    assert KeysAscending(ReadingOrder(items));
  }

  /** Picking one line out of the listed lines gives that line, sorted. */
  lemma {:induction false} LinesPick(items: seq<Item>, ks: seq<int>, k: int)
    requires Distinct(ks)
    ensures Filter(Lines(items, ks), KeyIs(k)) == if k in ks then SortLine(Filter(items, KeyIs(k))) else []
  {
    if ks == [] {
    } else {
      var init, last := ks[..|ks| - 1], ks[|ks| - 1];
      assert ks == init + [last];
      assert Distinct(init);
      assert last !in init;
      LinesPick(items, init, k);
      var b := SortLine(Filter(items, KeyIs(last)));
      FilterAppend(Lines(items, init), b, KeyIs(k));
      LineHasKey(items, last);
      if last == k {
        FilterAll(b, KeyIs(k));
        assert Filter(Lines(items, init), KeyIs(k)) == [];
      } else {
        FilterNone(b, KeyIs(k));
      }
    }
  }

  /**
   * Each line of `sort_for_reading`'s output is exactly that line of the
   * input, sorted by `SortLine`.
   */
  lemma ReadingOrderLine(items: seq<Item>, k: int)
    ensures Filter(ReadingOrder(items), KeyIs(k)) == SortLine(Filter(items, KeyIs(k)))
  {
    var ks := SortBy(KeysOf(items), IntLe);
    SortedKeys(items);
    LinesPick(items, ks, k);
    if k !in ks {
      forall it | it in items ensures !KeyIs(k)(it) {
      }
      FilterNone(items, KeyIs(k));
    }
  }

  /** A line is right to left exactly when more than half of its items are Arabic. */
  lemma RightToLeftIff(line: seq<Item>)
    ensures RightToLeft(line) <==> 2 * |Filter(line, ArabTest())| > |line|
  {
  }

  function XIs(c: int): Item -> bool { (it: Item) => it.x == c }

  /**
   * A line is sorted by ascending x, or by descending x when it is right to
   * left; the sort is a permutation, and items with equal x keep their input
   * order.
   */
  lemma SortLineSpec(line: seq<Item>, c: int)
    ensures multiset(SortLine(line)) == multiset(line)
    ensures var out := SortLine(line);
      !RightToLeft(line) ==> forall i, j :: 0 <= i < j < |out| ==> out[i].x <= out[j].x
    ensures var out := SortLine(line);
      RightToLeft(line) ==> forall i, j :: 0 <= i < j < |out| ==> out[i].x >= out[j].x
    ensures Filter(SortLine(line), XIs(c)) == Filter(line, XIs(c))
  {
    assert TotalPreorder(XAscending());
    assert TotalPreorder(XDescending());
    SortBySorted(line, LineOrder(line));
    SortByStable(line, LineOrder(line), XIs(c));
  }
}
