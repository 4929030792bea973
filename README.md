# Moroccan document OCR: a verified model of the extraction core

This project models, in Dafny, the deterministic core of an OCR pipeline for
Moroccan administrative documents (receipts, certificates, association
papers written in French and Arabic). The optical recognition itself
(Tesseract) and all pixel work are outside the model. Tesseract appears only
as a parameter: a function from a crop and a configuration string to the
rows it would report. What the model covers:

- **Template-driven field extraction.** `src/templates/template_extractor.py`
  is modelled by `template_extractor.dfy` and `template_run.dfy`. This covers
  the regions of a template, the conversion of relative boxes to pixel boxes,
  the Tesseract configuration, the choice of engine, and the per-field
  record.
- **Field normalisers.** `src/postprocessing/validators.py` is modelled by
  `validators.dfy`. It covers the CIN, date, phone, receipt number, ICE, IF,
  commune, name and free-text normalisers, and the dispatch on the field key.
- **Cross-language reconciliation.** `src/ocr/hybrid.py` is modelled by
  `hybrid.dfy`. It covers the script tests, the script filter, the
  box-overlap test and the two-pass de-duplication.
- **Result parsing and engine bookkeeping.** `src/ocr/base.py` is modelled by
  `base.dfy`: the OCR result record, the page-segmentation rule, the parse of
  Tesseract's data dictionary, and the engine's confidence.
- **Reading order.** `src/postprocessing/reading_order.py` is modelled by
  `reading_order.dfy`: normalisation of heterogeneous items, grouping into
  lines, and the right-to-left or left-to-right order within a line.
- **Result post-processing.** `src/postprocessing/postprocess.py` is modelled
  by `postprocess.dfy`: the language guess, the aggregation of results and
  the document-type classification.
- **The per-document template store.** `src/ocr/template.py` is modelled by
  `template_store.dfy`: loading template JSON, region crops, and template
  listing.
- **PIL pre-processing helpers.** `src/ocr/preproc_pil.py` is modelled by
  `preproc_pil.dfy`: Otsu's threshold over a 256-bin histogram, and the
  median confidence of the tokens whose text holds a digit.
- **The JSON cache's serialisation hooks.** `src/utils/document_management.py`
  is modelled by `document_cache.dfy`.
- **The three language engines' text clean-up and configuration.** These are
  `src/ocr/french.py`, `src/ocr/receipt.py` and `src/ocr/arabic.py`, modelled
  by `french.dfy`, `receipt.dfy` and `arabic.dfy`.

Shared helpers:

- `outcomes.dfy`: `Option`/`Result` and the Python exception kinds.
- `chars.dfy`: character classes, `strip`, substring tests and decimal
  formatting.
- `values.dfy`: dynamically typed Python values, truthiness, `int()` and
  `float()`.
- `sorting.dfy`: a stable sort with its permutation, order and uniqueness
  lemmas, and order-preserving filters.

Loops in the source are methods proved against fold-style specification
functions. Stateful objects (the engine's last results, the template store)
are classes. The rest is functions, with lemmas for the properties the code
promises.

## Model

| member | source | states |
|---|---|---|
| Validators.Ar2EnDigits | src/postprocessing/validators.py:5-6 | each Arabic-Indic digit becomes the ASCII digit of the same value; every other character is kept; the length is unchanged; no Arabic-Indic digit remains |
| Validators.Ar2EnIdempotent | src/postprocessing/validators.py:5-6 | translating twice is translating once |
| Validators.Ar2EnOfArabicIndic | src/postprocessing/validators.py:5-6 | a text whose ASCII digits were rewritten as Arabic-Indic translates to the same result as the original |
| Validators.CollapseSingleSpaced | src/postprocessing/validators.py:7 | `re.sub(r"\s+", " ", s)` leaves no two adjacent whitespace characters and no whitespace other than ' '; a leading run becomes a single ' ' |
| Validators.CollapseNonSpace | src/postprocessing/validators.py:7 | the collapse keeps every non-whitespace character, in order |
| Validators.CollapseNoop | src/postprocessing/validators.py:7 | on a single-spaced text the collapse changes nothing |
| Validators.SquashSpacesTrimmed | src/postprocessing/validators.py:7 | `squash_spaces` leaves no whitespace at either end |
| Validators.SquashSpacesSingleSpaced | src/postprocessing/validators.py:7 | inside, `squash_spaces` leaves only single ' ' characters |
| Validators.SquashSpacesNonSpace | src/postprocessing/validators.py:7 | `squash_spaces` keeps every non-whitespace character, in order |
| Validators.SquashSpaces | src/postprocessing/validators.py:7 | definition: whitespace runs collapsed to one space, then stripped |
| Validators.SquashSpacesIdempotent | src/postprocessing/validators.py:7 | `squash_spaces` is idempotent |
| Validators.SquashSpacesEmptyIff | src/postprocessing/validators.py:7 | `squash_spaces` gives "" exactly for whitespace-only (or empty) input |
| Validators.CinAt | src/postprocessing/validators.py:14 | a match of `([A-Z]{1,2})\s*[- ]?(\d{5,6})` at a position, as backtracking finds it, yields a CIN value: 1-2 capitals then 5-6 digits |
| Validators.FirstMatch | src/postprocessing/validators.py:14 | `re.search`: a found match is at the leftmost position from p where the matcher succeeds, with the matcher's value there; when nothing is found the matcher fails at every position from p to the end |
| Validators.CinSearch | src/postprocessing/validators.py:14 | `re.search` for the CIN pattern from p: the match found is the leftmost, its value is the matcher's value there and a CIN value; nothing found means the matcher fails at every position from p on |
| Validators.CinAtSound | src/postprocessing/validators.py:14 | when the matcher succeeds at p, the declarative pattern holds at p |
| Validators.CinAtComplete | src/postprocessing/validators.py:14 | when the declarative pattern holds at p, the matcher succeeds at p |
| Validators.CinSearchFinds | src/postprocessing/validators.py:14 | a search from p finds a match whenever one exists at some q ≥ p |
| Validators.CinSearchSound | src/postprocessing/validators.py:14 | the declarative pattern holds at the position the search reports, and at no earlier position from p |
| Validators.NormalizeCin | src/postprocessing/validators.py:12-16 | kind "cin"; valid exactly when the search finds a match in the upper-cased, digit-translated text, and then the value is that leftmost match's letters and digits (1-2 capitals, 5-6 digits); an invalid result carries `squash_spaces` of the input |
| Validators.NormalizeCinFirst | src/postprocessing/validators.py:12-16 | a valid value is the matcher's value at a position where the declarative pattern holds and before which it holds nowhere |
| Validators.NormalizeCinValidIff | src/postprocessing/validators.py:12-16 | the result is valid exactly when the upper-cased, digit-translated text contains the CIN pattern somewhere |
| Validators.DateAtSound | src/postprocessing/validators.py:20 | when the date matcher succeeds at p, the d/m/y pattern (1-2, 1-2 and 2-4 digits separated by '/') holds at p |
| Validators.DateAtComplete | src/postprocessing/validators.py:20 | when the d/m/y pattern holds at p, the matcher succeeds at p |
| Validators.DateSearchFinds | src/postprocessing/validators.py:20 | a search from p finds a date whenever one matches at some q ≥ p |
| Validators.DateSearchSound | src/postprocessing/validators.py:20 | the date search reports a position where the d/m/y pattern holds, with the three groups' numbers as its parts, and the pattern holds at no earlier position from p |
| Validators.DateFoundIff | src/postprocessing/validators.py:19-21 | a date is found exactly when the text, after digit translation and '.'/'-' to '/', holds the d/m/y pattern somewhere |
| Validators.ExpandYear | src/postprocessing/validators.py:23 | years below 50 become 20xx, 50-99 become 19xx, larger years are kept |
| Validators.NormalizeDate | src/postprocessing/validators.py:18-25 | kind "date"; a valid value is a canonical YYYY-MM-DD date with day 1-31, month 1-12 and year 1900-2100 |
| Validators.NormalizeDateSpec | src/postprocessing/validators.py:18-25 | no match gives invalid with `squash_spaces` of the input; otherwise valid exactly when day, month and expanded year are in range, and then the value reads back as those three numbers |
| Validators.FormatDateCanonical | src/postprocessing/validators.py:25 | in-range parts are written as a canonical date that reads back as the same year, month and day |
| Validators.DateExample | src/postprocessing/validators.py:18-25 | "12/08/2025" normalises to the valid date "2025-08-12" |
| Validators.KeepDigits | src/postprocessing/validators.py:28 | `re.sub(r"\D+", "", s)` is the filter of the text by the digit test: only digits, never longer |
| Validators.KeepDigitsInOrder | src/postprocessing/validators.py:28 | the kept digits are a subsequence of the text, and every digit of the text is kept |
| Validators.PhoneDigits | src/postprocessing/validators.py:28-30 | the national number is all digits, after dropping a leading "212" and then a leading "0" |
| Validators.NormalizePhone | src/postprocessing/validators.py:27-31 | kind "phone"; valid exactly when the national number has 9 digits, and then the value is "+212" followed by it; otherwise `squash_spaces` of the input |
| Validators.NormalizePhoneCanonical | src/postprocessing/validators.py:27-31 | a canonical "+212" number with 9 digits not starting with 0 normalises to itself, valid |
| Validators.PhoneDigitsCanonical | src/postprocessing/validators.py:28-30 | the national number of such a canonical number is its 9 digits |
| Validators.ReceiptAt | src/postprocessing/validators.py:35 | a match of `\d{1,6}(?:[/-]\d{2,4}){1,3}` at p ends strictly after p and inside the text |
| Validators.ReceiptSearch | src/postprocessing/validators.py:35 | `re.search` for the receipt pattern from p: the match (a, b) found is the matcher's match at the leftmost position a ≥ p where it succeeds; nothing found means it fails at every position from p on |
| Validators.ReceiptAtIff | src/postprocessing/validators.py:35 | the matcher succeeds at p exactly when the declarative receipt pattern holds at p |
| Validators.ReceiptSearchFinds | src/postprocessing/validators.py:35 | a search from p finds a match whenever one exists at some q ≥ p |
| Validators.ReceiptMatchChars | src/postprocessing/validators.py:35-37 | a match starts with a digit and holds only digits and separators |
| Validators.NormalizeReceiptNo | src/postprocessing/validators.py:33-37 | kind "receipt_no"; valid exactly when the search finds a match in the digit-translated text, and then the value is that leftmost match with '-' turned into '/', holding only digits and '/', starting with a digit; otherwise `squash_spaces` of the input |
| Validators.NormalizeReceiptValidIff | src/postprocessing/validators.py:33-37 | valid exactly when the digit-translated text holds the receipt pattern somewhere |
| Validators.NormalizeReceiptWhole | src/postprocessing/validators.py:33-37 | a text that is one whole match, in ASCII digits and with '/' only, is kept as it is, valid |
| Validators.ReceiptExample | src/postprocessing/validators.py:33-37 | "2024/1234" normalises to itself, valid |
| Validators.NormalizeIce | src/postprocessing/validators.py:39-41 | kind "ice"; the value is the bare digits; valid exactly at 15 digits |
| Validators.NormalizeIf | src/postprocessing/validators.py:43-45 | kind "if"; the value is the bare digits; valid exactly at 7 or 8 digits |
| Validators.FirstCommune | src/postprocessing/validators.py:49-51 | the first name in iteration order that matches either way round; None only when no name matches |
| Validators.NormalizeCommune | src/postprocessing/validators.py:47-52 | kind "commune", always valid; the value is a matching commune name, or the title-cased squashed input when no name matches |
| Validators.NormalizeCommuneGazetteer | src/postprocessing/validators.py:47-52 | for any iteration order of the fourteen Casablanca communes, the value is one of them or the cleaned input; blank input takes the first name tried |
| Validators.NormalizeName | src/postprocessing/validators.py:54 | kind "name"; the value is `squash_spaces` of the input; valid exactly when that is non-empty |
| Validators.NormalizeText | src/postprocessing/validators.py:70 | kind "text"; the value is `squash_spaces` of the digit-translated input; valid exactly when the squashed input is non-empty |
| Validators.NormalizeField | src/postprocessing/validators.py:56-70 | definition: the lower-cased key dispatched in the fixed order, None read as "" |
| Validators.NormalizeFieldEmpty | src/postprocessing/validators.py:56-70 | a None or empty text is invalid for every kind of key except a commune key |
| Validators.NormalizeAsDigitSystem | src/postprocessing/validators.py:56-70 | writing the digits as Arabic-Indic instead of ASCII leaves validity, and the value when valid, unchanged for the cin, date, phone, receipt, ice, if and text branches |
| OcrBase.ToDict | src/ocr/base.py:22-28 | `to_dict` has exactly the five keys; text, confidence, page and lang are copied; a bbox tuple becomes a list and a missing one stays None |
| OcrBase.PageSegmentationMode | src/ocr/base.py:75-86 | raises ZeroDivisionError exactly when the height is 0; otherwise the mode is 1, 3 or 6 |
| OcrBase.PageSegmentationModeRatio | src/ocr/base.py:78-86 | in whole numbers: mode 1 exactly when 5·width > 7·height (ratio above 1.4), 3 exactly when 5·width < 4·height (below 0.8), 6 otherwise |
| OcrBase.PageSegmentationModeScale | src/ocr/base.py:75-86 | scaling height and width by the same factor keeps the mode |
| OcrBase.CheckImage | src/ocr/base.py:92-93 | the guard raises ValueError exactly when the image is None or has a zero dimension |
| OcrBase.Cell | src/ocr/base.py:192-202 | reading `d[name][i]` succeeds exactly when the column exists and is long enough |
| OcrBase.ParsedFailureStays | src/ocr/base.py:189-211 | the first exception ends the parse: a longer prefix fails the same way |
| OcrBase.ParseRow | src/ocr/base.py:192-210 | one iteration of the parsing loop computes the row's outcome |
| OcrBase.ParseDataDict | src/ocr/base.py:177-211 | the parsing loop computes the fold over all rows |
| OcrBase.KeptIndicesIff | src/ocr/base.py:192-197 | the kept rows are exactly those with non-empty stripped text and a confidence that parses to at least 0 |
| OcrBase.ParsedRow | src/ocr/base.py:189-211 | the j-th result comes from the j-th kept row: its stripped, non-empty text, its confidence (≥ 0), its bbox cells, its page and the given language |
| OcrBase.ParseWellFormed | src/ocr/base.py:189-211 | well-formed Tesseract output (string texts, every column present and long enough) always parses |
| OcrBase.RowWellFormed | src/ocr/base.py:192-210 | one row of well-formed output never raises |
| OcrBase.MeanBounds | src/ocr/base.py:175 | the mean of the confidences lies between the least and the greatest of them |
| OcrBase.Engine.constructor | src/ocr/base.py:47-50 | a new engine has its language code and no last results |
| OcrBase.Engine.Confidence | src/ocr/base.py:165-175 | 0.0 without results; otherwise a value bounded below and above by confidences of the last results |
| OcrBase.Engine.Process | src/ocr/base.py:213-241 | without a language code raises NotImplementedError and keeps the state; otherwise returns the parse of the data for that code, and stores it as the last results exactly when it succeeds |
| OcrBase.ConfidenceAfterParse | src/ocr/base.py:165-175 | after a successful parse the engine's confidence is at least 0 |
| DocumentCache.Default | src/utils/document_management.py:15-20 | an OCR result becomes its dict, a tuple a list; anything else raises TypeError, and only that |
| DocumentCache.BoxItems | src/utils/document_management.py:27 | a falsy bbox gives the empty tuple; a truthy one is iterated |
| DocumentCache.Hook | src/utils/document_management.py:23-35 | a dict without all of text, confidence and bbox is returned unchanged, and only such a dict; a rehydrated result takes the dict's text, its confidence as a float, a four-entry bbox, page and lang |
| DocumentCache.HookToDict | src/utils/document_management.py:23-35 | reading back what `to_dict` wrote gives the same OCR result when its bbox has four entries |
| DocumentCache.HookDefault | src/utils/document_management.py:15-35 | the same round trip through `_default` then `_hook`, with the JSON encoding between them taken as the identity |
| DocumentCache.HookZeroBox | src/utils/document_management.py:27-31 | a bbox whose length is not four is read back as (0, 0, 0, 0) |
| DocumentCache.HookFalsyBox | src/utils/document_management.py:27-31 | a null or empty bbox is read back as (0, 0, 0, 0) |
| TemplateExtraction.AbsBox | src/templates/template_extractor.py:59-64 | a missing coordinate raises KeyError (x, y, w, h in that order), and only then; in an image of at least one pixel the box is non-empty and lies inside the image |
| TemplateExtraction.AbsBoxFloor | src/templates/template_extractor.py:59-64 | truncating toward zero (`int()`) and rounding down give the same clamped box |
| TemplateExtraction.BuildTessConfig | src/templates/template_extractor.py:9-23 | the option-building method produces the space-joined option list |
| TemplateExtraction.TessConfigEmpty | src/templates/template_extractor.py:9-23 | a region without options gets "" |
| TemplateExtraction.TessConfigPsmFirst | src/templates/template_extractor.py:11 | a page-segmentation mode comes first, as `--psm N` |
| TemplateExtraction.TessConfigArabic | src/templates/template_extractor.py:19-22 | for an Arabic region the LSTM, interword-space and 52-letter blacklist options close the configuration, after any of the region's own |
| TemplateExtraction.TessConfigNotArabic | src/templates/template_extractor.py:19-22 | without the Arabic language the options are exactly the Arabic configuration minus those trailing options |
| TemplateExtraction.CropOf | src/templates/template_extractor.py:25-33 | the crop keeps the region's box; it is resized exactly when the scale parses to a non-zero value other than 1.0, and then by that factor |
| TemplateExtraction.Route | src/templates/template_extractor.py:92-99 | `receipt_no` always goes to "receipt"; otherwise an explicit lang wins; otherwise "arabic" exactly for the Arabic heuristic, else "french" |
| TemplateExtraction.EngineFor | src/templates/template_extractor.py:101-103 | the named engine, else the hybrid engine; RuntimeError exactly when neither exists |
| TemplateExtraction.ResultToDict | src/templates/template_extractor.py:35-50 | a result with `to_dict` gives that dict, a dict itself, any other object `{"text": str(r)}`; an attribute object gives the five keys with its text and language, its confidence as a float, a bbox of the `int()` of its four-item box or of (0, 0, 1, 1) otherwise, and a page number that is the `int()` of its own or of 1; only it can raise |
| TemplateExtraction.TokenOf | src/templates/template_extractor.py:112-116 | the scan reads the dict's text and float confidence and an area of at least 1; it raises exactly when the confidence or the box's width or height does not convert |
| TemplateExtraction.RecognizedToken | src/templates/template_extractor.py:110-116 | an OCR result without a four-entry bbox scores with its own text and confidence and area 1 |
| TemplateExtraction.ScanFailureStays | src/templates/template_extractor.py:109-118 | once a result raises, the rest change nothing |
| TemplateExtraction.ScanShape | src/templates/template_extractor.py:109-118 | the scan succeeds exactly when every result reads, and then keeps one dict and one token per result, in order |
| TemplateExtraction.ReadItemParts | src/templates/template_extractor.py:110-116 | a result reads exactly when its dict converts and its token reads from that dict |
| TemplateExtraction.BestOfMaximal | src/templates/template_extractor.py:107-118 | the best token is the earliest of maximal positive confidence × area, or the initial ('', 0.0, 1) when none scores above zero |
| TemplateExtraction.BestOfPositive | src/templates/template_extractor.py:107-118 | with areas of at least 1, the best token has area ≥ 1 and a positive confidence unless none was chosen |
| TemplateExtraction.BestTextFrom | src/templates/template_extractor.py:107-118 | the best text is "" or the text of one of the tokens |
| TemplateExtraction.ScanResults | src/templates/template_extractor.py:107-118 | the scanning loop computes the dicts and the best token of the scan specification |
| TemplateExtraction.AnyIsDigit | src/templates/template_extractor.py:124 | over a list or tuple: true at the first digit string, false when every item is a non-digit string, AttributeError at a non-string item met first |
| TemplateExtraction.DigitishSpec | src/templates/template_extractor.py:124 | a string is digit-ish exactly when it holds a digit, '/' or '-'; a list or tuple as above; anything else raises TypeError or AttributeError |
| TemplateExtraction.ProbeParts | src/templates/template_extractor.py:123-125 | one dict succeeds exactly when its text can be tested and, when digit-ish, its confidence converts; it contributes a confidence exactly when digit-ish |
| TemplateExtraction.DigitishOfSucceeds | src/templates/template_extractor.py:121-125 | the digit-ish loop succeeds exactly when every dict's probe does |
| TemplateExtraction.DigitishOfSound | src/templates/template_extractor.py:121-125 | every collected confidence is that of a digit-ish dict |
| TemplateExtraction.DigitishOfComplete | src/templates/template_extractor.py:121-125 | the confidence of every digit-ish dict is collected |
| TemplateExtraction.DigitishOfEmpty | src/templates/template_extractor.py:121-128 | nothing is collected exactly when no dict is digit-ish |
| TemplateExtraction.DigitishConfidences | src/templates/template_extractor.py:121-125 | the digit-ish loop computes the collected confidences |
| TemplateExtraction.UpperMedian | src/templates/template_extractor.py:129 | `sorted(d)[len(d)//2]` is one of the values |
| TemplateExtraction.UpperMedianSorted | src/templates/template_extractor.py:129 | it is the middle element of every sorted permutation of the values |
| TemplateExtraction.UpperMedianPermutation | src/templates/template_extractor.py:129 | it does not depend on the order of the tokens |
| TemplateExtraction.UpperMedianFour | src/templates/template_extractor.py:129 | of 0.9, 0.7, 0.2 and 0.4 it is 0.7 |
| TemplateExtraction.DigitsOnlyEmpty | src/templates/template_extractor.py:133 | the digits-only text is empty exactly when the joined text has no digit, '/' or '-' |
| TemplateExtraction.CandidatesShape | src/templates/template_extractor.py:135-141 | at most three candidates, all non-empty; a "digits" candidate exactly when the joined text holds a digit, '/' or '-', carrying the +0.1 bias; none when both texts are empty |
| TemplateExtraction.ChooseOfMaximal | src/templates/template_extractor.py:143-152 | no candidate beats the choice under (valid, confidence, length); the choice is the default or the earliest candidate of its score |
| TemplateExtraction.ChooseOfValid | src/templates/template_extractor.py:143-152 | if any candidate normalises validly the choice is valid |
| TemplateExtraction.ChooseCandidate | src/templates/template_extractor.py:143-152 | the choice loop computes the choice specification |
| TemplateRun.PutSpec | src/templates/template_extractor.py:158 | dict assignment keeps the dict well formed, stores the value, changes no other entry and keeps the insertion order of existing keys, appending a new key last |
| TemplateRun.BestTextIsString | src/templates/template_extractor.py:132-141 | once every token text is a string (the join succeeded), the best token's text is a string |
| TemplateRun.FieldConfSpec | src/templates/template_extractor.py:121-129 | without digit-ish tokens the field confidence is the best token's; with some it is the upper median of their confidences, the confidence of one of them |
| TemplateRun.FieldOutcomeParts | src/templates/template_extractor.py:158-167 | a field keeps its "section.name" key, routed language, box and every token dict |
| TemplateRun.RegionOutcomeSpec | src/templates/template_extractor.py:86-167 | a region's field sits under "section.name" with the routed language, the clamped box and every token dict; a missing coordinate raises KeyError and a missing engine RuntimeError |
| TemplateRun.ProcessRegion | src/templates/template_extractor.py:87-167 | the inner-loop body computes the region's outcome |
| TemplateRun.ReadField | src/templates/template_extractor.py:107-167 | the part from the engine's results to the field computes the field outcome |
| TemplateRun.ChooseField | src/templates/template_extractor.py:131-166 | the candidate and choice part computes the chosen field |
| TemplateRun.AssembleFailureStays | src/templates/template_extractor.py:85-167 | the first region that raises ends the run |
| TemplateRun.AssembleSpec | src/templates/template_extractor.py:85-167 | the regions succeed exactly when each does, and then yield every region's result in order |
| TemplateRun.BuildWellFormed | src/templates/template_extractor.py:158-167 | recording regions keeps both output dicts well formed |
| TemplateRun.BuildFieldKeys | src/templates/template_extractor.py:158 | `fields` has exactly one key per distinct "section.name" of the regions |
| TemplateRun.BuildFieldLast | src/templates/template_extractor.py:158 | a field holds what the last region with its key produced |
| TemplateRun.BuildRawKeys | src/templates/template_extractor.py:167 | `raw` has exactly the routed languages as keys |
| TemplateRun.BuildRaw | src/templates/template_extractor.py:167 | each language's raw list is the token dicts of its regions, in order |
| TemplateRun.RunSpecOutcome | src/templates/template_extractor.py:78-175 | an unknown template key raises KeyError; a run succeeds exactly when every region does, and then has one field per "section.name" and metadata defaulting `template_version` to "1.0" and `required_fields` to [] |
| TemplateRun.TemplateExtractor.constructor | src/templates/template_extractor.py:54-57 | the extractor holds the parsed templates |
| TemplateRun.TemplateExtractor.Run | src/templates/template_extractor.py:78-175 | `run` computes the run specification for the image's height and width |
| TemplateRun.RecordRegion | src/templates/template_extractor.py:86-167 | one pass of the inner loop gives the j-th region's outcome; an error there is the outcome of the whole section, otherwise its field and tokens are recorded after those already done |
| TemplateRun.ProcessSection | src/templates/template_extractor.py:86-167 | the inner loop over one section's regions fails with the first region error, or records all of them after those already done |
| Hybrid.ScriptTests | src/ocr/hybrid.py:28-35 | None and "" are in neither script; a string is Arabic exactly when some character lies in U+0600-U+06FF, Latin exactly when some character lower-cases into a-z: an ASCII letter, the Kelvin sign U+212A or the dotted capital I U+0130 |
| Hybrid.FilterByScript | src/ocr/hybrid.py:37-45 | the filtering loop computes the script filter |
| Hybrid.ScriptFilteredSpec | src/ocr/hybrid.py:37-45 | the filter keeps exactly the results whose text is in the script of the language; any other language, and a None list, give [] |
| Hybrid.Overlap | src/ocr/hybrid.py:83-87 | on numbers, for boxes with positive sides, the test holds exactly when the open rectangles share a point on both axes |
| Hybrid.OverlapSymmetricStrict | src/ocr/hybrid.py:83-87 | the test is symmetric, and boxes that only share an edge do not overlap |
| Hybrid.BoxOf | src/ocr/hybrid.py:93-94 | a result's box is falsy exactly when it is None or empty; a truthy box keeps its parts, whatever they are |
| Hybrid.PyAdd | src/ocr/hybrid.py:87 | Python's `+`: numbers add, strings, lists and tuples concatenate, anything else raises TypeError |
| Hybrid.PyLess | src/ocr/hybrid.py:87 | Python's `<`: numbers by value, strings lexicographically, lists and tuples at the first unequal item; anything else raises TypeError |
| Hybrid.OverlapParts | src/ocr/hybrid.py:87 | the four comparisons, evaluated left to right and only while they hold; they raise only TypeError, and on numbers give the overlap test |
| Hybrid.OverlapOf | src/ocr/hybrid.py:84-87 | `a` is unpacked first, then `b`: a box without four parts raises ValueError; after that only TypeError can arise; on two boxes of four numbers the result is the overlap test |
| Hybrid.OverlapShortCircuit | src/ocr/hybrid.py:87 | once the x-extents are apart the answer is False, whatever the y parts hold |
| Hybrid.OverlapNoneHeight | src/ocr/hybrid.py:84-87 | (0, 0, 1, None) against (5, 5, 1, 1) gives False; moved to x = 5, it raises |
| Hybrid.OverlapStrings | src/ocr/hybrid.py:84-87 | boxes of four strings compare their concatenations lexicographically |
| Hybrid.ScanFrench | src/ocr/hybrid.py:97-106 | the first pass's inner loop computes whether the Arabic result loses |
| Hybrid.ScanKeptArabic | src/ocr/hybrid.py:116-125 | the second pass's inner loop computes whether the French result loses |
| Hybrid.KeepArabic | src/ocr/hybrid.py:91-108 | the first pass's loop collects the Arabic results to keep |
| Hybrid.KeepFrench | src/ocr/hybrid.py:110-127 | the second pass's loop collects the French results to keep |
| Hybrid.DedupeOverlaps | src/ocr/hybrid.py:89-129 | `_dedupe_overlaps` computes the two-pass specification |
| Hybrid.ArabicPassFilter | src/ocr/hybrid.py:91-108 | the first pass, when it does not raise, is an order-preserving filter of the Arabic results |
| Hybrid.FrenchPassFilter | src/ocr/hybrid.py:110-127 | the second pass, when it does not raise, is an order-preserving filter of the French results |
| Hybrid.DedupeFilters | src/ocr/hybrid.py:89-129 | on success the Arabic survivors are the first pass's filter, and the French survivors the second pass's filter against them |
| Hybrid.FalsyBoxesKept | src/ocr/hybrid.py:94-115 | results whose bbox is falsy always survive |
| Hybrid.ArabicLosesFalse | src/ocr/hybrid.py:97-106 | when no French result makes an Arabic one lose, every overlapping boxed French result has strictly lower confidence |
| Hybrid.FrenchLosesFalse | src/ocr/hybrid.py:116-125 | when no kept Arabic result makes a French one lose, every overlapping boxed kept Arabic result has confidence at most the French one's |
| Hybrid.ArabicSurvivorsWin | src/ocr/hybrid.py:102-106 | an Arabic survivor with a box beats every boxed French input it overlaps, strictly |
| Hybrid.FrenchSurvivorsHold | src/ocr/hybrid.py:121-125 | a French survivor with a box is at least as confident as every kept boxed Arabic result it overlaps |
| Hybrid.NoCrossOverlap | src/ocr/hybrid.py:89-129 | no surviving boxed Arabic result overlaps a surviving boxed French result |
| Hybrid.OverlappingPair | src/ocr/hybrid.py:102-106 | for one overlapping pair the more confident result survives alone; on equal confidence the French one is kept and the Arabic one dropped |
| Hybrid.DedupeSubsets | src/ocr/hybrid.py:89-129 | each de-duplicated list holds only results of its own input |
| Hybrid.ProcessDocument | src/ocr/hybrid.py:136-150 | `process_document` computes the combination of both engines' outputs |
| Hybrid.HybridOfSpec | src/ocr/hybrid.py:136-150 | the result has exactly the keys "arabic" and "french", each holding results of its own engine in its own script, filtered before de-duplication |
| Preproc.VarianceNonNegative | src/ocr/preproc_pil.py:20-23 | the between-class variance of a splitting threshold is never negative |
| Preproc.BestStep | src/ocr/preproc_pil.py:24-26 | a splitting level replaces the best one exactly when its variance is strictly larger |
| Preproc.BestSkip | src/ocr/preproc_pil.py:15-16 | a level with an empty background leaves the best level as it is |
| Preproc.NoSplitAfter | src/ocr/preproc_pil.py:17-19 | once the background holds every pixel no later level splits, so stopping there loses nothing |
| Preproc.OtsuThreshold | src/ocr/preproc_pil.py:5-27 | the threshold is in 0..255; 127 when no level splits the pixels; otherwise a splitting level of maximal between-class variance, the first one of that variance |
| Preproc.NoSplitIff | src/ocr/preproc_pil.py:5-27 | no level splits exactly when the histogram is empty or has a single non-empty bin, and then the threshold is 127 |
| Preproc.DigitConfidence | src/ocr/preproc_pil.py:48-61 | one token contributes nothing when its text has no digit or its confidence does not convert, else that float; it raises exactly when its text cannot be searched |
| Preproc.MedianDigitConfidence | src/ocr/preproc_pil.py:46-64 | the loop and median compute the digit-confidence specification |
| Preproc.MedianDigitConfRaises | src/ocr/preproc_pil.py:48-61 | the function raises exactly when some token's text cannot be searched for a digit |
| Preproc.DigitConfidencesSound | src/ocr/preproc_pil.py:48-61 | every collected value is the float confidence of a token whose text holds a digit |
| Preproc.DigitConfidencesComplete | src/ocr/preproc_pil.py:48-61 | the confidence of every digit token is collected whenever it converts |
| Preproc.DigitConfidencesEmpty | src/ocr/preproc_pil.py:62-63 | nothing is collected exactly when no digit token has a convertible confidence, and the result is then 0.0 |
| Preproc.DigitConfidencesPermutation | src/ocr/preproc_pil.py:47-61 | reordering the tokens reorders what is collected |
| Preproc.MedianDigitConfPermutation | src/ocr/preproc_pil.py:46-64 | the result does not depend on the order of the tokens |
| Preproc.MedianSorted | src/ocr/preproc_pil.py:64 | `statistics.median` is the middle element of the sorted values, or the mean of the two middle ones |
| Preproc.MedianHalves | src/ocr/preproc_pil.py:64 | in sorted order the lower half is at most the median and the upper half at least it |
| Preproc.MedianBetween | src/ocr/preproc_pil.py:64 | the median lies between the least and the greatest value |
| Preproc.MedianOdd | src/ocr/preproc_pil.py:64 | of an odd number of values the median is one of them |
| Preproc.MedianPermutation | src/ocr/preproc_pil.py:64 | the median does not depend on the order of the values |
| Preproc.MedianDigitConfExample | src/ocr/preproc_pil.py:46-64 | texts "A1", "B2", "C", "9" with confidences 0.9, 0.7, 0.2, 0.4 give 0.7 |
| ReadingOrder.NormalizeItem | src/postprocessing/reading_order.py:4-24 | definition: the dataclass, dict and other branches of `_normalize_item` |
| ReadingOrder.NormalizeItemSpec | src/postprocessing/reading_order.py:4-24 | the normalised token carries the input's text and language and the four integers of its box; it raises exactly when `int()` refuses one of the four box values, with TypeError or ValueError |
| ReadingOrder.NormalizeItemDefaults | src/postprocessing/reading_order.py:6-24 | a missing, falsy or malformed box becomes (0, 0, 1, 1); a dict's "bbox" wins over "bounding_box", its language falls back to "lang" and then "french"; any other value becomes its `str()` in French with the unit box |
| ReadingOrder.NormalizeAllSpec | src/postprocessing/reading_order.py:32-34 | the comprehension succeeds exactly when every token normalises and then holds each token's normalisation at its index; otherwise it raises what the first failing token raises |
| ReadingOrder.ListValuesAppend | src/postprocessing/reading_order.py:28-31 | each dict value contributes its list, in order, and a value that is not a list contributes nothing |
| ReadingOrder.FlattenResults | src/postprocessing/reading_order.py:26-35 | a dict flattens its list values in order and normalises them, a list is normalised as it is, anything else gives [] |
| ReadingOrder.SortForReading | src/postprocessing/reading_order.py:37-50 | the two loops compute the reading-order specification: lines grouped by key, emitted by ascending key, each sorted |
| ReadingOrder.Group | src/postprocessing/reading_order.py:39-42 | one turn of the grouping loop appends the item to the line of its key, creating the line when the key is new; every line keeps its items in input order |
| ReadingOrder.LinesStep | src/postprocessing/reading_order.py:44-49 | each turn of the second loop appends the next key's sorted line |
| ReadingOrder.FilterNoKey | src/postprocessing/reading_order.py:42 | a key no token has yet starts an empty line |
| ReadingOrder.KeysOfComplete | src/postprocessing/reading_order.py:39-42 | every token's line key is a key of the `lines` dict |
| ReadingOrder.KeysOfSound | src/postprocessing/reading_order.py:39-42 | the keys are listed once each, and each is the key of some token |
| ReadingOrder.SortedKeys | src/postprocessing/reading_order.py:44 | the keys are visited in ascending order, once each, and include every token's key |
| ReadingOrder.LineHasKey | src/postprocessing/reading_order.py:45 | every token of a line has that line's key |
| ReadingOrder.LinesMultiset | src/postprocessing/reading_order.py:43-49 | the emitted lines hold exactly the tokens whose key is listed, each once |
| ReadingOrder.ReadingOrder | src/postprocessing/reading_order.py:37-50 | definition: the lines of the sorted distinct keys, each sorted, concatenated |
| ReadingOrder.ReadingOrderPermutation | src/postprocessing/reading_order.py:37-50 | the output is a permutation of the input: no token is lost or duplicated |
| ReadingOrder.LinesKeys | src/postprocessing/reading_order.py:43-49 | every emitted token has a listed key |
| ReadingOrder.AppendAscending | src/postprocessing/reading_order.py:49 | appending a line after lines of smaller keys keeps the keys ascending |
| ReadingOrder.KeysBelowLast | src/postprocessing/reading_order.py:44-49 | with ascending keys every earlier line's token has a key at most the last key |
| ReadingOrder.LinesAscending | src/postprocessing/reading_order.py:44-49 | lines emitted for ascending keys give ascending line keys |
| ReadingOrder.ReadingOrderAscending | src/postprocessing/reading_order.py:37-50 | the output runs top to bottom: line keys never decrease |
| ReadingOrder.LinesPick | src/postprocessing/reading_order.py:44-49 | picking the tokens of one key out of the output gives that line, sorted, or nothing for an unlisted key |
| ReadingOrder.ReadingOrderLine | src/postprocessing/reading_order.py:37-50 | each line of the output is exactly that line of the input, sorted |
| ReadingOrder.RightToLeftIff | src/postprocessing/reading_order.py:46-47 | a line is right to left exactly when more than half of its tokens are Arabic |
| ReadingOrder.SortLineSpec | src/postprocessing/reading_order.py:48 | a line is a permutation of itself sorted by ascending x, or by descending x when right to left, and tokens with equal x keep their order (a stable sort) |
| PostProcess.AnyArabic | src/postprocessing/postprocess.py:16 | the scan is true exactly when some character lies in the Arabic block U+0600..U+06FF |
| PostProcess.AnyLatin | src/postprocessing/postprocess.py:19 | the scan is true exactly when some character lowers to a letter a..z |
| PostProcess.GuessLang | src/postprocessing/postprocess.py:14-21 | "arabic" exactly when an Arabic-block character occurs, "french" exactly when none does but a Latin letter does, None exactly when neither occurs |
| PostProcess.GuessLangStrip | src/postprocessing/postprocess.py:50-62 | guessing before or after `strip()` gives the same language |
| PostProcess.ArabicInside | src/postprocessing/postprocess.py:16 | no whitespace is Arabic, so trimming blank ends keeps every Arabic character |
| PostProcess.LatinInside | src/postprocessing/postprocess.py:19 | no whitespace lowers to a Latin letter, so trimming blank ends keeps every Latin letter |
| PostProcess.EntryOf | src/postprocessing/postprocess.py:47-64 | an input that is kept has a stripped, non-empty text |
| PostProcess.EntryFailsIff | src/postprocessing/postprocess.py:47-60 | reading one input raises exactly when its confidence is truthy and `float()` refuses it |
| PostProcess.ScanFailureStays | src/postprocessing/postprocess.py:46-71 | once the loop has raised, later inputs do not matter |
| PostProcess.ScanInputs | src/postprocessing/postprocess.py:43-71 | the loop over the inputs computes the scan: the first raising input, or the kept texts, languages, total and count |
| PostProcess.Process | src/postprocessing/postprocess.py:32-103 | definition: the scan of the inputs, then the mean, the sorted languages and the document type |
| PostProcess.ProcessResults | src/postprocessing/postprocess.py:32-103 | the loop and the summary compute the `process` specification |
| PostProcess.Keep | src/postprocessing/postprocess.py:66-71 | a kept input appends its text, adds its language once, and adds its confidence when it is at least 0 |
| PostProcess.ScanFailsIff | src/postprocessing/postprocess.py:46-71 | the loop raises exactly when reading some input raises |
| PostProcess.ProcessFailsIff | src/postprocessing/postprocess.py:32-103 | `process` raises exactly when some input's confidence does not convert |
| PostProcess.ScanTexts | src/postprocessing/postprocess.py:62-66 | the text list is the texts of the kept inputs, in input order |
| PostProcess.KeptTextsClean | src/postprocessing/postprocess.py:62-66 | every kept text is stripped and non-empty |
| PostProcess.TextsSpec | src/postprocessing/postprocess.py:46-66 | `text` holds, in input order, the stripped non-empty texts of the inputs of a handled type |
| PostProcess.ScanTotal | src/postprocessing/postprocess.py:69-71 | the total of the counted confidences is at least 0, and at most c per count when every kept confidence is at most c |
| PostProcess.MeanBounds | src/postprocessing/postprocess.py:73-75 | the mean, or 0.0 for no count, lies between 0 and any bound the total respects per count |
| PostProcess.MeanNonNegative | src/postprocessing/postprocess.py:73-75 | the mean of a non-negative total is never negative |
| PostProcess.ConfidenceBounds | src/postprocessing/postprocess.py:69-75 | `metadata.confidence` is never negative and lies at or below any bound every kept confidence respects |
| PostProcess.PlainConfidenceZero | src/postprocessing/postprocess.py:47-49 | a batch of plain strings never raises and has confidence 0.0 |
| PostProcess.ScanLangs | src/postprocessing/postprocess.py:67-68 | the language set holds, once each, exactly the truthy languages of the kept inputs |
| PostProcess.StrLeTotal | src/postprocessing/postprocess.py:100-102 | Python's string order compares any two strings |
| PostProcess.StrLeTrans | src/postprocessing/postprocess.py:100-102 | Python's string order is transitive |
| PostProcess.StrLeAntisym | src/postprocessing/postprocess.py:100-102 | Python's string order is antisymmetric |
| PostProcess.StrOrderTotal | src/postprocessing/postprocess.py:100-102 | the order `sorted()` uses on the languages is a total order |
| PostProcess.LanguagesSpec | src/postprocessing/postprocess.py:67-102 | `languages_detected` is sorted, has no duplicates, and holds exactly the languages of the kept inputs |
| PostProcess.DeclarationLetters | src/postprocessing/postprocess.py:81-94 | since only a..z survive in the letters, the accented spelling of the pattern never matches: it finds "declaration" or "dclaration" |
| PostProcess.DocType | src/postprocessing/postprocess.py:84-97 | definition: the keyword tests on the folded text in priority order |
| PostProcess.DocTypePriority | src/postprocessing/postprocess.py:84-97 | a document type is chosen exactly when its keyword family is present and no family before it is (certificate, application, authorization, declaration); none present leaves the type None |
| TemplateStore.Lookup | src/ocr/template.py:43-48 | a JSON object's value for a key is found exactly when a field has that name, and it is that field's value |
| TemplateStore.Index | src/ocr/template.py:46-59 | `v[k]` raises KeyError for a missing key of an object and TypeError on anything that is not an object |
| TemplateStore.Items | src/ocr/template.py:40-44 | `.items()` succeeds exactly on an object and gives its fields in order |
| TemplateStore.RegionOf | src/ocr/template.py:45-52 | a region read from its coordinates carries its section and its field name |
| TemplateStore.LoadAll | src/ocr/template.py:34-63 | every failure of the load, an unreadable file included, is the one RuntimeError |
| TemplateStore.InsertKeyShape | src/ocr/template.py:54-60 | assigning a key keeps each id listed once, in insertion order, and matching the dict's keys |
| TemplateStore.StoredShape | src/ocr/template.py:40-60 | after the load the dict lists each template id once |
| TemplateStore.StoredIds | src/ocr/template.py:40-60 | the dict holds exactly the ids of the file |
| TemplateStore.StoredLast | src/ocr/template.py:54-60 | a repeated id keeps the last template read under it |
| TemplateStore.Clip | src/ocr/template.py:84 | a Python slice bound lands inside the sequence |
| TemplateStore.Slice | src/ocr/template.py:84 | the crop `image[y1:y2, x1:x2]` lies inside the image |
| TemplateStore.TemplateExtractor.constructor | src/ocr/template.py:30-31 | a new store is empty |
| TemplateStore.TemplateExtractor.Put | src/ocr/template.py:54-60 | storing a template assigns its id as a dict does and keeps the store's shape |
| TemplateStore.TemplateExtractor.ExtractRegions | src/ocr/template.py:65-88 | the crop loop computes the `extract_regions` specification |
| TemplateStore.TemplateExtractor.GetTemplateInfo | src/ocr/template.py:90-102 | None exactly for an unknown id, else the template's name, version and number of regions |
| TemplateStore.TemplateExtractor.ListTemplates | src/ocr/template.py:104-114 | one listing per template in the dict's order, each with its id and the template's names and version, ids distinct |
| TemplateStore.Listings | src/ocr/template.py:106-114 | the comprehension gives one listing per id, in order |
| TemplateStore.SectionRegionsShape | src/ocr/template.py:44-52 | a section yields one region per field, named after the field |
| TemplateStore.RegionsPairs | src/ocr/template.py:43-52 | the regions come one per (section, name) pair, in section-then-name order |
| TemplateStore.CropsErrors | src/ocr/template.py:76-86 | every failure of the crop loop is a TypeError from a coordinate that is not a number |
| TemplateStore.Extract | src/ocr/template.py:64-87 | definition: ValueError for an unknown id, else the crops of the template's regions |
| TemplateStore.ExtractUnknown | src/ocr/template.py:69-70 | `extract_regions` raises ValueError exactly for an unknown template id |
| TemplateStore.CropsShape | src/ocr/template.py:74-88 | the crops dict lists each key once, every region's corners were computed, and every crop is non-empty and inside the image |
| TemplateStore.CropsStep | src/ocr/template.py:84-86 | a region adds its "section.name" key exactly when it cuts a non-empty slice |
| TemplateStore.CropsKeys | src/ocr/template.py:74-88 | the crops dict holds a key exactly when some region under that key cuts a non-empty slice |
| TemplateStore.RoiNonEmptyIff | src/ocr/template.py:78-85 | with non-negative corners the crop is non-empty exactly when x1 < min(x2, W) and y1 < min(y2, H) |
| TemplateStore.ReadRegions | src/ocr/template.py:41-52 | the nested loops compute the region list of the specification |
| TemplateStore.ReadTemplate | src/ocr/template.py:41-60 | one template is its regions, then its name, Arabic name, version and required fields |
| TemplateStore.Load | src/ocr/template.py:30-63 | construction fails exactly when the load does, with the one RuntimeError, and otherwise gives a fresh store holding the loaded templates |
| TemplateStore.LoadStep | src/ocr/template.py:40-60 | each template read extends the load and assigns its id in the dict |
| TemplateStore.SectionFailureStays | src/ocr/template.py:44-52 | once reading a field has raised, later fields do not matter |
| TemplateStore.SectionsFailureStays | src/ocr/template.py:43-52 | once reading a section has raised, later sections do not matter |
| TemplateStore.TemplatesFailureStays | src/ocr/template.py:40-60 | once reading a template has raised, later templates do not matter |
| TemplateStore.CropsFailureStays | src/ocr/template.py:76-86 | once the crop loop has raised, later regions do not matter |
| FrenchEngine.ReplaceChar | src/ocr/french.py:60-61 | `str.replace` of one character keeps the length and changes exactly the occurrences of that character |
| FrenchEngine.ReplaceRemoves | src/ocr/french.py:60-61 | after replacing a character by another, none of it is left |
| FrenchEngine.ReplaceAbsent | src/ocr/french.py:60-61 | replacing a character the text lacks changes nothing |
| FrenchEngine.RepairKeepsSpaces | src/ocr/french.py:60-61 | the two repairs keep the length, turn no whitespace into text nor text into whitespace, and leave no vertical bar and no '1' |
| FrenchEngine.BlankUnchanged | src/ocr/french.py:56-57 | empty or whitespace-only text is returned unchanged |
| FrenchEngine.NonBlankRepaired | src/ocr/french.py:56-68 | any other text gives the repaired text stripped, and the repaired text is not blank |
| FrenchEngine.NonBlankSlice | src/ocr/french.py:59-68 | any other text gives a slice of the repaired text with only whitespace cut on either side |
| FrenchEngine.NonBlankShape | src/ocr/french.py:59-68 | any other text gives a non-empty result with no vertical bar, no '1', no whitespace at either end, and no longer than the input |
| FrenchEngine.Postprocess | src/ocr/french.py:51-68 | definition: whitespace-only text unchanged, otherwise '|' to 'I', '1' to 'l', then strip |
| FrenchEngine.Idempotent | src/ocr/french.py:51-68 | cleaning twice is cleaning once |
| ReceiptEngine.OnlyDigitsAndSlash | src/ocr/receipt.py:24 | the result holds only digits and '/', and is never longer than the input |
| ReceiptEngine.KeepsInOrder | src/ocr/receipt.py:24 | the result is a subsequence of the input holding every digit and '/' of it |
| ReceiptEngine.UnchangedIff | src/ocr/receipt.py:21-25 | the text comes back unchanged exactly when it holds only digits and '/' |
| ReceiptEngine.Postprocess | src/ocr/receipt.py:21-25 | definition: the characters that are digits or '/', in order |
| ReceiptEngine.Idempotent | src/ocr/receipt.py:21-25 | cleaning twice is cleaning once |
| Chars.AsciiLettersExact | src/ocr/arabic.py:25 | the blacklisted letters are A..Z then a..z: 52 characters, every ASCII letter once and nothing else |
| ArabicEngine.PsmReadsBack | src/ocr/arabic.py:20-26 | the configuration starts with "--psm " and the mode in decimal, which reads back as the mode and is followed by a space |
| ArabicEngine.TessConfigAr | src/ocr/arabic.py:20-26 | definition: `--psm {psm}` followed by the fixed Arabic options and the letter blacklist |
| ArabicEngine.DefaultConfig | src/ocr/arabic.py:20-26 | without an argument the configuration is "--psm 6" followed by the fixed options |
| ArabicEngine.BlacklistExact | src/ocr/arabic.py:20-26 | the configuration ends with "tessedit_char_blacklist=" and then exactly the 52 ASCII letters |
| ArabicEngine.Postprocess | src/ocr/arabic.py:64-82 | definition: blank input unchanged, otherwise AttributeError |
| ArabicEngine.PostprocessIff | src/ocr/arabic.py:64-82 | the clean-up succeeds exactly on whitespace-only text, returning it unchanged; any other text raises AttributeError, since the phrase table is never set |
| ArabicEngine.UnsupportedRaises | src/ocr/arabic.py:89-90 | without Arabic support the document raises RuntimeError |
| ArabicEngine.ProcessDocument | src/ocr/arabic.py:84-120 | definition: RuntimeError without "ara", the first pass, then the retry pass when it is empty |
| ArabicEngine.PassesUsed | src/ocr/arabic.py:84-120 | the first pass (mode 6, the image as it is) decides whenever it raises or finds something; otherwise the retry (mode 7, the image enlarged 1.3 times when the resize worked) decides |
| ArabicEngine.RetryOnlyWhenEmpty | src/ocr/arabic.py:104-120 | the retry's answer matters only when the first pass found nothing |
| ArabicEngine.EmptyOnlyWhenBothEmpty | src/ocr/arabic.py:104-120 | the result is [], never None, exactly when both passes found nothing |

## Left out

- Optical recognition: Tesseract's `image_to_data`, `get_languages` and `validate_language` are not modelled. Their answers are parameters: a data dictionary, an OCR function, or a `supported` flag.
- Pixel work is not modelled because it is image arithmetic in OpenCV, PIL and numpy. This covers:
  - every `preprocess_image`;
  - `apply_preproc` (src/ocr/preproc_pil.py:29-44);
  - `preprocess_region` (src/ocr/template.py:116-137);
  - `analyze_layout` (src/ocr/hybrid.py:47-81);
  - the resize of `_apply_scale` and of the Arabic retry, of which only the decision to resize (and whether it succeeded) is kept;
  - the `ensure_3ch` helpers.
- `process_image` of the base engine (src/ocr/base.py:88-146) is not modelled. It passes `bounding_box`, `language` and `page_number` keywords that the result record does not accept, so every non-empty recognition there raises. `process` (src/ocr/base.py:213-241) and the parse of the data dictionary it uses are modelled.
- `_run_engine` (src/templates/template_extractor.py:66-76) is the OCR function parameter. The engine is called with the crop and the configuration, and after two TypeErrors with the crop alone; the parameter covers both calls because it may ignore the configuration. Exceptions raised inside an engine (such as the RuntimeError of src/ocr/arabic.py:90 or src/ocr/french.py:76), which would propagate out of `run`, are not modelled: the OCR function always returns tokens.
- `_process_regions` (src/ocr/hybrid.py:157-180) is not modelled. It assigns to the read-only `bounding_box` property at line 178 and raises there.
- `FrenchOCR.process_document` and `ReceiptOCR.process_image` are not modelled: they only call Tesseract.
- ArabicEngine.Postprocess: `arabic_reshaper.reshape` and bidi `get_display` are foreign libraries. They are taken not to raise, so the model only captures the whitespace branch and the AttributeError that follows for any other text.
- PostProcess: the accent folding `_fold` (NFKD decomposition, then dropping combining marks) is a parameter, as is `str()` of a float, list or tuple.
- Chars.IsDigit: Python's `str.isdigit`, `\d` and `isspace` are Unicode-wide. Here digits are the ASCII, Arabic-Indic and Extended Arabic-Indic digits. Case mapping is ASCII only. The `\w` of the `\bif\b` key test (Validators.IsWordChar) is narrowed to ASCII letters and digits, `_`, the digits above, U+00C0-U+00FF less × and ÷, and the Arabic letters U+0621-U+064A; Python's Unicode `\w` also counts other letters, so a key such as "µif" is taken here to hold the word "if" and by Python not to.
- Confidences, Otsu means and aspect ratios are exact reals. IEEE rounding, NaN and infinities are not modelled.
- Validators.NormalizeCommune: `COMMUNES_CASA` is a hash-ordered set, so its iteration order is a parameter. The result is specified as the first match in that order.
- Reading the template and cache files is not modelled; the parsed JSON is the input. This covers the byte-order mark accepted by one loader and not the other, duplicate JSON keys, and `DocumentCache.save`/`load`.
- TemplateExtraction.Region: every template value has one fixed type. Coordinates are numbers, `psm` and `oem` integers, `dpi` a number and `lang` a string. A coordinate that is present but null raises TypeError at `rel['x'] * W` in Python (src/templates/template_extractor.py:60); the model has no such value, since `None` means a missing key, for which AbsBox raises KeyError. A string coordinate is repeated by `* W` and then given to `int()`, which raises ValueError or even succeeds. `str(psm)` and `int(dpi)` also accept strings and floats, and `int(dpi)` raises ValueError on a non-numeric string; BuildTessConfig never fails.
- DocumentCache.HookDefault: the JSON encoding that `save` and `load` perform between `_default` and `_hook` is taken as the identity. Real `json.dump`/`json.load` turn a tuple held in `page`, in `lang` or inside the bbox into a list, so for such a result the record read back differs from the one saved.
- Validators.NormalizeCommune: title-casing uses the ASCII case mapping, so any non-ASCII letter, capital or lowercase, counts as uncased, and the letter after it is capitalised ("aïn xyz" becomes "AïN Xyz", where Python gives "Aïn Xyz"). Python's `"MÉDIOUNA".title()` is "Médiouna", which matches the gazetteer entry; the model makes "MÉDiouna", matches nothing and keeps the title-cased input. Four of the fourteen names are accented.
- ReadingOrder.SortForReading: the input is taken to be `_normalize_item` output, a text, a language and four integer coordinates. Python's `sort_for_reading` accepts any dict, and the model does not capture three of its behaviours: a dict without 'bbox' is grouped and sorted with the default [0, 0, 1, 1]; float coordinates give a float `y // max(1, h)` and a float sort key; a bbox that does not unpack into four values raises ValueError.
- TemplateStore.Num: a string or list coordinate raises TypeError in the model. Python would first multiply it by the image size, as a repetition, and may fail later with ValueError, or even succeed, depending on its content.
- PostProcess.LangOr: a truthy language that is not a string is added as its `str()` text. Python adds the value itself, and `sorted()` of a set mixing strings with other values raises TypeError; that error is not modelled.
- DocumentCache.Hook: the rehydrated result's text is a string in this model, so a cached `text` that is not a string raises TypeError here. Python's `_hook` keeps any value there; the aggregation (src/postprocessing/postprocess.py:52-62) then fails on a truthy non-string text only later, in the language guess or in `.strip()`, and takes a falsy one as "".
- TemplateStore.LoadAll: the RuntimeError's message is "Failed to load templates" without the `str(e)` detail of the underlying error, whose text depends on the JSON parser and the file system.
- `ParseIntText`/`ParseFloatText` do not accept underscore separators, exponents (such as "1e3"), "inf" or "nan".
- The GUI, performance analytics, document export, the scripts and the tests are not part of this model. Two tests expect behaviour the code does not have: accent stripping in the French clean-up, and a receipt engine in the end-to-end template run.
