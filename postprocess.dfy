/**
 * The post-processor: it gathers the texts of a batch of OCR results (plain
 * strings, OCRResult records or dicts), averages their confidences, collects
 * the languages they are in, and classifies the document from keywords in
 * the joined text.
 *
 * The accent folding `_fold` (NFKD decomposition, then dropping combining
 * marks) is a parameter `fold`, and so is `str()` of a float, list or tuple
 * (`show`); everything else is modelled.
 */
module PostProcess {
  import opened Outcomes
  import opened Chars
  import opened PyValues
  import opened Sorting
  import opened OcrBase

  // ------------------------------------------------------------ _guess_lang

  /** `any("؀" <= ch <= "ۿ" for ch in s)` */
  function AnyArabic(s: string): (r: bool)
    ensures r <==> HasArabicChar(s)
  {
    if s == [] then false
    else
      assert forall i :: 1 <= i < |s| ==> s[i] == s[1..][i - 1];
      IsArabicChar(s[0]) || AnyArabic(s[1..])
  }

  /** `any("a" <= ch.lower() <= "z" for ch in s)` */
  function AnyLatin(s: string): (r: bool)
    ensures r <==> HasLatinChar(s)
  {
    if s == [] then false
    else
      assert forall i :: 1 <= i < |s| ==> s[i] == s[1..][i - 1];
      LowersToLatin(s[0]) || AnyLatin(s[1..])
  }

  /** `_guess_lang`: Arabic if any Arabic-block character, else French if any Latin letter. */
  function GuessLang(text: string): (r: Option<string>)
    ensures r == Some("arabic") <==> HasArabicChar(text)
    ensures r == Some("french") <==> !HasArabicChar(text) && HasLatinChar(text)
    ensures r == None <==> !HasArabicChar(text) && !HasLatinChar(text)
  {
    if AnyArabic(text) then Some("arabic")
    else if AnyLatin(text) then Some("french")
    else None
  }

  /** Whitespace around a text does not change the guess: `strip()` keeps every letter. */
  lemma GuessLangStrip(s: string)
    ensures GuessLang(Strip(s)) == GuessLang(s)
  {
    StripShape(s);
    var a, b :| 0 <= a <= b <= |s| && Strip(s) == s[a..b] && AllSpace(s[..a]) && AllSpace(s[b..]);
    ArabicInside(s, a, b);
    LatinInside(s, a, b);
  }

  /** No whitespace character is Arabic, so an Arabic character of `s` lies between its blank ends. */
  lemma ArabicInside(s: string, a: nat, b: nat)
    requires a <= b <= |s| && AllSpace(s[..a]) && AllSpace(s[b..])
    ensures HasArabicChar(s[a..b]) <==> HasArabicChar(s)
  {
    if HasArabicChar(s) {
      var i :| 0 <= i < |s| && IsArabicChar(s[i]);
      if a <= i < b {
        assert s[a..b][i - a] == s[i];
      }
    }
    if HasArabicChar(s[a..b]) {
      var i :| 0 <= i < b - a && IsArabicChar(s[a..b][i]);
      assert s[a + i] == s[a..b][i];
    }
  }

  /** No whitespace character lowers to a Latin letter, so such a character of `s` lies between its blank ends. */
  lemma LatinInside(s: string, a: nat, b: nat)
    requires a <= b <= |s| && AllSpace(s[..a]) && AllSpace(s[b..])
    ensures HasLatinChar(s[a..b]) <==> HasLatinChar(s)
  {
    if HasLatinChar(s) {
      var i :| 0 <= i < |s| && LowersToLatin(s[i]);
      if a <= i < b {
        assert s[a..b][i - a] == s[i];
      }
    }
    if HasLatinChar(s[a..b]) {
      var i :| 0 <= i < b - a && LowersToLatin(s[a..b][i]);
      assert s[a + i] == s[a..b][i];
    }
  }

  // ------------------------------------------------------------ one input

  /** What `process` may receive: a string, an OCRResult, a dict, or anything else. */
  datatype Input = Plain(s: string) | FromResult(r: OCRResult) | FromDict(d: Dict) | Unsupported

  /** The text, confidence and language read from one kept input. */
  datatype Reading = Reading(text: string, conf: real, lang: Option<string>)

  /** `str(v)` of a truthy value; the text form of a float, list or tuple is `show(v)`. */
  function StrOf(show: Value -> string, v: Value): string
  {
    match v
    case VStr(s) => s
    case VBool(b) => if b then "True" else "False"
    case VInt(i) => IntToDecimal(i)
    case _ => show(v)
  }

  /** `lang or _guess_lang(text)`: a truthy language as a string, or the guess. */
  function LangOr(show: Value -> string, v: Value, text: string): Option<string>
  {
    if Truthy(v) then Some(StrOf(show, v)) else GuessLang(text)
  }

  /**
   * The branch of the loop for one input, before stripping: None for an input
   * of another type. A dict's confidence goes through `float()`, which may raise.
   */
  function ReadInput(show: Value -> string, x: Input): Result<Option<Reading>>
  {
    match x
    case Plain(s) => Success(Some(Reading(s, 0.0, GuessLang(s))))
    case FromResult(r) => Success(Some(Reading(r.text, r.confidence, LangOr(show, r.lang, r.text))))
    case FromDict(d) =>
      var tv := Get(d, "text", VNone);
      var text := if Truthy(tv) then StrOf(show, tv) else "";
      var cv := Get(d, "confidence", VNone);
      var conf := if Truthy(cv) then ToFloat(cv) else Success(0.0);
      (match conf
       case Failure(e) => Failure(e)
       case Success(c) => Success(Some(Reading(text, c, LangOr(show, Get(d, "lang", VNone), text)))))
    case Unsupported => Success(None)
  }

  /** One input as the loop keeps it: stripped, and skipped when the stripped text is empty. */
  function EntryOf(show: Value -> string, x: Input): (r: Result<Option<Reading>>)
    ensures r.Success? && r.value.Some? ==> r.value.value.text != [] && Strip(r.value.value.text) == r.value.value.text
  {
    match ReadInput(show, x)
    case Failure(e) => Failure(e)
    case Success(None) => Success(None)
    case Success(Some(rd)) =>
      var t := Strip(rd.text);
      StripIdempotent(rd.text);
      if t == [] then Success(None) else Success(Some(Reading(t, rd.conf, rd.lang)))
  }

  /** `float()` of the input's confidence raises. */
  predicate BadConfidence(x: Input) {
    x.FromDict? && Truthy(Get(x.d, "confidence", VNone)) && ToFloat(Get(x.d, "confidence", VNone)).Failure?
  }

  /** Reading one input raises exactly when its confidence does not convert, whatever its text. */
  lemma EntryFailsIff(show: Value -> string, x: Input)
    ensures EntryOf(show, x).Failure? <==> BadConfidence(x)
  {
  }

  // ------------------------------------------------------------ the loop

  /** The loop's state: the text list, the languages seen (in first-seen order), the sum and count of confidences. */
  datatype Acc = Acc(texts: seq<string>, langs: seq<string>, total: real, count: nat)

  /** One kept input: append its text, note its language when truthy, count its confidence when not negative. */
  function Add(acc: Acc, e: Reading): Acc
  {
    Acc(acc.texts + [e.text],
        if e.lang.Some? && e.lang.value != [] && e.lang.value !in acc.langs then acc.langs + [e.lang.value] else acc.langs,
        if e.conf >= 0.0 then acc.total + e.conf else acc.total,
        if e.conf >= 0.0 then acc.count + 1 else acc.count)
  }

  /** What the loop reads from each input, in order. */
  function Entries(show: Value -> string, xs: seq<Input>): (es: seq<Result<Option<Reading>>>)
    ensures |es| == |xs| && forall i :: 0 <= i < |xs| ==> es[i] == EntryOf(show, xs[i])
  {
    Map(xs, (x: Input) => EntryOf(show, x))
  }

  /** The loop over what was read, the last input last; it raises what the first failing input raises. */
  function Scan(es: seq<Result<Option<Reading>>>): Result<Acc>
  {
    if es == [] then Success(Acc([], [], 0.0, 0))
    else
      match Scan(es[..|es| - 1])
      case Failure(e) => Failure(e)
      case Success(acc) =>
        match es[|es| - 1]
        case Failure(e) => Failure(e)
        case Success(None) => Success(acc)
        case Success(Some(e)) => Success(Add(acc, e))
  }

  /** Once the loop has raised, later inputs do not matter. */
  lemma {:induction false} ScanFailureStays(es: seq<Result<Option<Reading>>>, n: nat)
    requires n <= |es| && Scan(es[..n]).Failure?
    ensures Scan(es) == Scan(es[..n])
  {
    if n < |es| {
      assert es[..|es| - 1][..n] == es[..n];
      ScanFailureStays(es[..|es| - 1], n);
    } else {
      assert es[..n] == es;
    }
  }

  /** One more turn of the loop, from the accumulator of the turns before it. */
  lemma {:induction false} ScanNext(es: seq<Result<Option<Reading>>>, i: nat, acc: Acc)
    requires i < |es| && Scan(es[..i]) == Success(acc)
    ensures es[i].Failure? ==> Scan(es[..i + 1]) == Failure(es[i].error)
    ensures es[i] == Success(None) ==> Scan(es[..i + 1]) == Success(acc)
    ensures es[i].Success? && es[i].value.Some? ==> Scan(es[..i + 1]) == Success(Add(acc, es[i].value.value))
  {
    assert es[..i + 1][..i] == es[..i];
  }

  /** The result of `process`. */
  datatype Processed = Processed(text: seq<string>, documentType: Option<string>, languages: seq<string>, confidence: real)

  /** The mean of the counted confidences, or 0.0 when none was counted. */
  function Mean(total: real, count: nat): real
  {
    if count > 0 then total / count as real else 0.0
  }

  /** `PostProcessor.process`. */
  function Process(fold: string -> string, show: Value -> string, xs: seq<Input>): Result<Processed>
  {
    match Scan(Entries(show, xs))
    case Failure(e) => Failure(e)
    case Success(acc) =>
      Success(Processed(acc.texts, DocType(fold, Join(acc.texts, " ")), SortBy(acc.langs, StrOrder()), Mean(acc.total, acc.count)))
  }

  /** The loop of `PostProcessor.process`. */
  method ScanInputs(show: Value -> string, inputs: seq<Input>) returns (r: Result<Acc>)
    ensures r == Scan(Entries(show, inputs))
  {
    ghost var es := Entries(show, inputs);
    var texts: seq<string> := [];
    var langs: seq<string> := [];
    var total := 0.0;
    var count: nat := 0;
    for i := 0 to |inputs|
      invariant Scan(es[..i]) == Success(Acc(texts, langs, total, count))
    {
      var e := EntryOf(show, inputs[i]);
      assert e == es[i];
      ScanNext(es, i, Acc(texts, langs, total, count));
      if e.Failure? {
        ScanFailureStays(es, i + 1);
        return Failure(e.error);
      }
      if e.value.None? {
        continue;
      }
      texts, langs, total, count := Keep(texts, langs, total, count, e.value.value);
    }
    assert es[..|inputs|] == es;
    return Success(Acc(texts, langs, total, count));
  }

  /** The loop of `PostProcessor.process`, then the summary it builds. */
  method ProcessResults(fold: string -> string, show: Value -> string, inputs: seq<Input>) returns (r: Result<Processed>)
    ensures r == Process(fold, show, inputs)
  {
    var acc := ScanInputs(show, inputs);
    if acc.Failure? {
      return Failure(acc.error);
    }
    var joined := Join(acc.value.texts, " ");
    r := Success(Processed(acc.value.texts, DocType(fold, joined), SortBy(acc.value.langs, StrOrder()),
                           Mean(acc.value.total, acc.value.count)));
  }

  /** The body of the loop for a kept input. */
  method Keep(texts: seq<string>, langs: seq<string>, total: real, count: nat, rd: Reading)
    returns (texts': seq<string>, langs': seq<string>, total': real, count': nat)
    ensures Acc(texts', langs', total', count') == Add(Acc(texts, langs, total, count), rd)
  {
    texts' := texts + [rd.text];
    langs' := langs;
    if rd.lang.Some? && rd.lang.value != [] && rd.lang.value !in langs {
      langs' := langs + [rd.lang.value];
    }
    total', count' := total, count;
    if rd.conf >= 0.0 {
      total' := total + rd.conf;
      count' := count + 1;
    }
  }

  // ------------------------------------------------------------ what the loop keeps

  /** The texts of the kept entries, in input order. */
  function KeptTexts(es: seq<Result<Option<Reading>>>): seq<string>
  {
    if es == [] then []
    else
      var e := es[|es| - 1];
      KeptTexts(es[..|es| - 1]) + (if e.Success? && e.value.Some? then [e.value.value.text] else [])
  }

  /** The loop raises exactly when reading some input raises. */
  lemma {:induction false} ScanFailsIff(es: seq<Result<Option<Reading>>>)
    ensures Scan(es).Failure? <==> exists i :: 0 <= i < |es| && es[i].Failure?
  {
    if es != [] {
      var init := es[..|es| - 1];
      ScanFailsIff(init);
      assert forall i :: 0 <= i < |init| ==> init[i] == es[i];
    }
  }

  /** `process` raises exactly when some input's confidence does not convert. */
  lemma ProcessFailsIff(fold: string -> string, show: Value -> string, xs: seq<Input>)
    ensures Process(fold, show, xs).Failure? <==> exists i :: 0 <= i < |xs| && BadConfidence(xs[i])
  {
    var es := Entries(show, xs);
    ScanFailsIff(es);
    forall i | 0 <= i < |xs| ensures es[i].Failure? <==> BadConfidence(xs[i]) {
      EntryFailsIff(show, xs[i]);
    }
  }

  /** The loop's text list is the texts of the kept entries. */
  lemma {:induction false} ScanTexts(es: seq<Result<Option<Reading>>>)
    requires Scan(es).Success?
    ensures Scan(es).value.texts == KeptTexts(es)
  {
    if es != [] {
      ScanTexts(es[..|es| - 1]);
    }
  }

  /** The texts of the kept entries of a batch are stripped and non-empty. */
  lemma {:induction false} KeptTextsClean(show: Value -> string, xs: seq<Input>)
    ensures forall t :: t in KeptTexts(Entries(show, xs)) ==> t != [] && Strip(t) == t
  {
    if xs != [] {
      var init := xs[..|xs| - 1];
      KeptTextsClean(show, init);
      assert Entries(show, xs)[..|xs| - 1] == Entries(show, init);
    }
  }

  /**
   * The `text` list holds, in input order, the stripped non-empty texts of the
   * inputs of a handled type; each is stripped and non-empty.
   */
  lemma TextsSpec(fold: string -> string, show: Value -> string, xs: seq<Input>)
    requires Process(fold, show, xs).Success?
    ensures Process(fold, show, xs).value.text == KeptTexts(Entries(show, xs))
    ensures forall t :: t in Process(fold, show, xs).value.text ==> t != [] && Strip(t) == t
  {
    ScanTexts(Entries(show, xs));
    KeptTextsClean(show, xs);
  }

  /** The entry is not kept, or its confidence is at most `c`. */
  predicate ConfAtMost(e: Result<Option<Reading>>, c: real) {
    e.Success? && e.value.Some? ==> e.value.value.conf <= c
  }

  /** Every kept confidence of the loop's entries is at most `c`. */
  predicate ConfsAtMost(es: seq<Result<Option<Reading>>>, c: real) {
    forall i :: 0 <= i < |es| ==> ConfAtMost(es[i], c)
  }

  /** Every counted confidence is at least 0; when every kept confidence is at most `c`, the sum is at most `c` per count. */
  lemma {:induction false} ScanTotal(es: seq<Result<Option<Reading>>>, c: real)
    requires Scan(es).Success?
    ensures 0.0 <= Scan(es).value.total
    ensures ConfsAtMost(es, c) ==> Scan(es).value.total <= c * Scan(es).value.count as real
  {
    if es != [] {
      var init := es[..|es| - 1];
      ScanTotal(init, c);
      assert forall i :: 0 <= i < |init| ==> init[i] == es[i];
      if ConfsAtMost(es, c) {
        assert ConfsAtMost(init, c);
      }
      var acc := Scan(init).value;
      var e := es[|es| - 1];
      if e.value.Some? && e.value.value.conf >= 0.0 {
        assert c * (acc.count + 1) as real == c * acc.count as real + c;
      }
    }
  }

  lemma MeanBounds(total: real, count: nat, c: real)
    requires 0.0 <= total && 0.0 <= c && total <= c * count as real
    ensures 0.0 <= Mean(total, count) <= c
  {
    if count > 0 {
      var n := count as real;
      assert total / n <= c by {
        assert (total / n) * n == total;
      }
    }
  }

  lemma MeanNonNegative(total: real, count: nat)
    requires 0.0 <= total
    ensures 0.0 <= Mean(total, count)
  {
  }

  /**
   * `metadata.confidence` is never negative, and lies at or below any bound
   * every kept confidence respects.
   */
  lemma ConfidenceBounds(fold: string -> string, show: Value -> string, xs: seq<Input>, c: real)
    requires Process(fold, show, xs).Success? && 0.0 <= c
    ensures 0.0 <= Process(fold, show, xs).value.confidence
    ensures (forall i :: 0 <= i < |xs| ==> ConfAtMost(EntryOf(show, xs[i]), c)) ==> Process(fold, show, xs).value.confidence <= c
  {
    ProcessConfidence(fold, show, xs);
    var es := Entries(show, xs);
    ScanMeanBounds(es, c);
    if forall i :: 0 <= i < |xs| ==> ConfAtMost(EntryOf(show, xs[i]), c) {
      assert ConfsAtMost(es, c);
    }
  }

  /** The mean of what the loop counted is never negative, and at most any bound every kept confidence respects. */
  lemma ScanMeanBounds(es: seq<Result<Option<Reading>>>, c: real)
    requires Scan(es).Success? && 0.0 <= c
    ensures var acc := Scan(es).value;
      && 0.0 <= Mean(acc.total, acc.count)
      && (ConfsAtMost(es, c) ==> Mean(acc.total, acc.count) <= c)
  {
    var acc := Scan(es).value;
    ScanTotal(es, c);
    MeanNonNegative(acc.total, acc.count);
    if ConfsAtMost(es, c) {
      MeanBounds(acc.total, acc.count, c);
    }
  }

  /** The confidence of a successful `process` is the mean of what its loop counted. */
  lemma ProcessConfidence(fold: string -> string, show: Value -> string, xs: seq<Input>)
    requires Process(fold, show, xs).Success?
    ensures Scan(Entries(show, xs)).Success?
    ensures var acc := Scan(Entries(show, xs)).value;
      Process(fold, show, xs).value.confidence == Mean(acc.total, acc.count)
  {
  }

  /** Plain strings count as confidence 0.0, so a batch of strings has confidence 0.0. */
  lemma PlainConfidenceZero(fold: string -> string, show: Value -> string, xs: seq<Input>)
    requires forall i :: 0 <= i < |xs| ==> xs[i].Plain?
    ensures Process(fold, show, xs).Success? && Process(fold, show, xs).value.confidence == 0.0
  {
    ProcessFailsIff(fold, show, xs);
    ConfidenceBounds(fold, show, xs, 0.0);
  }

  // ------------------------------------------------------------ languages

  /** The truthy language of a kept entry, if any. */
  function LangOf(e: Result<Option<Reading>>): Option<string>
  {
    if e.Success? && e.value.Some? && e.value.value.lang.Some? && e.value.value.lang.value != []
    then e.value.value.lang
    else None
  }

  /** The loop's language list has no duplicates and holds exactly the languages of the kept entries. */
  lemma {:induction false} ScanLangs(es: seq<Result<Option<Reading>>>)
    requires Scan(es).Success?
    ensures Distinct(Scan(es).value.langs)
    ensures forall l :: l in Scan(es).value.langs <==> exists i :: 0 <= i < |es| && LangOf(es[i]) == Some(l)
  {
    if es != [] {
      var init := es[..|es| - 1];
      ScanLangs(init);
      assert forall i :: 0 <= i < |init| ==> init[i] == es[i];
      var langs := Scan(es).value.langs;
      forall l ensures l in langs <==> exists i :: 0 <= i < |es| && LangOf(es[i]) == Some(l) {
        if exists i :: 0 <= i < |es| && LangOf(es[i]) == Some(l) {
          var i :| 0 <= i < |es| && LangOf(es[i]) == Some(l);
          if i < |init| {
            assert LangOf(init[i]) == Some(l);
          }
        }
      }
    }
  }

  /** Lexicographic order of strings by code point, as Python compares `str`. */
  predicate StrLe(a: string, b: string) {
    a == [] || (b != [] && (a[0] < b[0] || (a[0] == b[0] && StrLe(a[1..], b[1..]))))
  }

  function StrOrder(): (string, string) -> bool { (a: string, b: string) => StrLe(a, b) }

  lemma {:induction false} StrLeTotal(a: string, b: string)
    ensures StrLe(a, b) || StrLe(b, a)
  {
    if a != [] && b != [] && a[0] == b[0] {
      StrLeTotal(a[1..], b[1..]);
    }
  }

  lemma {:induction false} StrLeTrans(a: string, b: string, c: string)
    requires StrLe(a, b) && StrLe(b, c)
    ensures StrLe(a, c)
  {
    if a != [] && b != [] && c != [] && a[0] == b[0] && b[0] == c[0] {
      StrLeTrans(a[1..], b[1..], c[1..]);
    }
  }

  lemma {:induction false} StrLeAntisym(a: string, b: string)
    requires StrLe(a, b) && StrLe(b, a)
    ensures a == b
  {
    if a != [] && b != [] {
      StrLeAntisym(a[1..], b[1..]);
      assert a == [a[0]] + a[1..] && b == [b[0]] + b[1..];
    }
  }

  lemma StrOrderTotal()
    ensures TotalOrder(StrOrder())
  {
    var le := StrOrder();
    forall a, b ensures le(a, b) || le(b, a) {
      StrLeTotal(a, b);
    }
    forall a, b, c | le(a, b) && le(b, c) ensures le(a, c) {
      StrLeTrans(a, b, c);
    }
    forall a, b | le(a, b) && le(b, a) ensures a == b {
      StrLeAntisym(a, b);
    }
  }

  /**
   * `languages_detected` is sorted, has no duplicates, and holds exactly the
   * languages of the kept inputs.
   */
  lemma LanguagesSpec(fold: string -> string, show: Value -> string, xs: seq<Input>)
    requires Process(fold, show, xs).Success?
    ensures var ls := Process(fold, show, xs).value.languages;
      && SortedBy(ls, StrOrder()) && Distinct(ls)
      && forall l :: l in ls <==> exists i :: 0 <= i < |xs| && LangOf(EntryOf(show, xs[i])) == Some(l)
  {
    var es := Entries(show, xs);
    var langs := Scan(es).value.langs;
    var ls := SortBy(langs, StrOrder());
    ScanLangs(es);
    StrOrderTotal();
    SortBySorted(langs, StrOrder());
    DistinctCounts(langs);
    CountsDistinct(ls);
    forall l ensures l in ls <==> l in langs {
      assert l in ls <==> l in multiset(ls);
    }
  }

  // ------------------------------------------------------------ document type

  function LetterTest(): char -> bool { (c: char) => IsLower(c) }

  /** `re.search(r"d[ée]?claration", s)` */
  predicate DeclarationIn(s: string) {
    IsInfix("declaration", s) || IsInfix("déclaration", s) || IsInfix("dclaration", s)
  }

  /**
   * The document-type rule: the first keyword family found wins, in the
   * order certificate, application, authorization, declaration. Latin
   * keywords are looked up in the folded lower-case text, Arabic ones in the
   * lower-case text; the declaration pattern runs over the folded text with
   * everything but a-z removed.
   */
  function DocType(fold: string -> string, txt: string): Option<string>
  {
    var lower := LowerStr(txt);
    var folded := fold(lower);
    var letters := Filter(folded, LetterTest());
    if IsInfix("certificat", folded) || IsInfix("شهادة", lower) then Some("certificate")
    else if IsInfix("demande", folded) || IsInfix("طلب", lower) then Some("application")
    else if IsInfix("autorisation", folded) || IsInfix("رخصة", lower) then Some("authorization")
    else if DeclarationIn(letters) || IsInfix("تصريح", lower) then Some("declaration")
    else None
  }

  /** The keyword families, as tested on the lower-case text and its folding. */
  predicate CertificateWord(fold: string -> string, txt: string) {
    IsInfix("certificat", fold(LowerStr(txt))) || IsInfix("شهادة", LowerStr(txt))
  }

  predicate ApplicationWord(fold: string -> string, txt: string) {
    IsInfix("demande", fold(LowerStr(txt))) || IsInfix("طلب", LowerStr(txt))
  }

  predicate AuthorizationWord(fold: string -> string, txt: string) {
    IsInfix("autorisation", fold(LowerStr(txt))) || IsInfix("رخصة", LowerStr(txt))
  }

  predicate DeclarationWord(fold: string -> string, txt: string) {
    var letters := Filter(fold(LowerStr(txt)), LetterTest());
    IsInfix("declaration", letters) || IsInfix("dclaration", letters) || IsInfix("تصريح", LowerStr(txt))
  }

  /**
   * Since only a-z survive in the letters, the accented spelling in the
   * declaration pattern can never match: the pattern finds "declaration" or
   * "dclaration".
   */
  lemma DeclarationLetters(s: string)
    requires forall i :: 0 <= i < |s| ==> IsLower(s[i])
    ensures DeclarationIn(s) <==> IsInfix("declaration", s) || IsInfix("dclaration", s)
  {
    forall i | 0 <= i <= |s| - 11 ensures !InfixAt("déclaration", s, i) {
      assert IsLower(s[i + 1]);
    }
  }

  /**
   * The priority of the document types: a type is chosen exactly when its
   * keyword family is present and no family before it is; no keyword at all
   * leaves the type unset.
   */
  lemma DocTypePriority(fold: string -> string, txt: string)
    ensures DocType(fold, txt) == Some("certificate") <==> CertificateWord(fold, txt)
    ensures DocType(fold, txt) == Some("application") <==> !CertificateWord(fold, txt) && ApplicationWord(fold, txt)
    ensures DocType(fold, txt) == Some("authorization") <==>
      !CertificateWord(fold, txt) && !ApplicationWord(fold, txt) && AuthorizationWord(fold, txt)
    ensures DocType(fold, txt) == Some("declaration") <==>
      !CertificateWord(fold, txt) && !ApplicationWord(fold, txt) && !AuthorizationWord(fold, txt) && DeclarationWord(fold, txt)
    ensures DocType(fold, txt) == None <==>
      !CertificateWord(fold, txt) && !ApplicationWord(fold, txt) && !AuthorizationWord(fold, txt) && !DeclarationWord(fold, txt)
  {
    var letters := Filter(fold(LowerStr(txt)), LetterTest());
    DeclarationLetters(letters);
  }
}
